/** String operations of the JavaScript runtime that the application relies
    on: `split`, `includes`, ASCII `toLowerCase` and `length` in UTF-16
    code units, plus order-preserving subsequences for `Array.filter`. */
module Text {
  import opened Wrappers

  /** `sep` occurs in `s` starting at index `j`. */
  predicate OccursAt(s: string, sep: string, j: nat) {
    j + |sep| <= |s| && s[j..j + |sep|] == sep
  }

  /** Dropping the first character moves every occurrence one place left. */
  lemma OccursShift(s: string, sep: string)
    requires |s| > 0
    ensures forall j :: 1 <= j <= |s| ==> (OccursAt(s, sep, j) <==> OccursAt(s[1..], sep, j - 1))
  {
    forall j | 1 <= j <= |s|
      ensures OccursAt(s, sep, j) <==> OccursAt(s[1..], sep, j - 1)
    {
      if j + |sep| <= |s| {
        var a, b := s[j..j + |sep|], s[1..][j - 1..j - 1 + |sep|];
        forall t | 0 <= t < |sep| ensures a[t] == b[t] {
          assert a[t] == s[j + t] && b[t] == s[1..][j - 1 + t];
        }
        assert a == b;
      }
    }
  }

  /** First index at which `sep` occurs in `s` (`String.prototype.indexOf`). */
  function IndexOf(s: string, sep: string): (r: Option<nat>)
    requires |sep| > 0
    ensures r.Some? ==> OccursAt(s, sep, r.value)
    ensures r.Some? ==> forall j :: 0 <= j < r.value ==> !OccursAt(s, sep, j)
    ensures r.None? ==> forall j :: 0 <= j <= |s| ==> !OccursAt(s, sep, j)
    decreases |s|
  {
    if |s| < |sep| then None
    else if s[..|sep|] == sep then Some(0)
    else
      OccursShift(s, sep);
      match IndexOf(s[1..], sep)
      case None => None
      case Some(k) => Some(k + 1)
  }

  /** `s.split(sep)`: the pieces between the occurrences of `sep`, found
      left to right; there is always at least one piece. */
  function Split(s: string, sep: string): (parts: seq<string>)
    requires |sep| > 0
    ensures |parts| >= 1
    decreases |s|
  {
    match IndexOf(s, sep)
    case None => [s]
    case Some(i) => [s[..i]] + Split(s[i + |sep|..], sep)
  }

  /** With a one-character separator, no piece of a split contains it. */
  lemma {:induction false} SplitPiecesFree(s: string, sep: string)
    requires |sep| == 1
    ensures forall k :: 0 <= k < |Split(s, sep)| ==> sep[0] !in Split(s, sep)[k]
    decreases |s|
  {
    match IndexOf(s, sep)
    case None =>
      forall j | 0 <= j < |s| ensures s[j] != sep[0] {
        assert s[j..j + 1] == [s[j]];
        assert !OccursAt(s, sep, j);
      }
    case Some(i) =>
      var rest := s[i + 1..];
      SplitPiecesFree(rest, sep);
      forall j | 0 <= j < i ensures s[j] != sep[0] {
        assert s[j..j + 1] == [s[j]];
        assert !OccursAt(s, sep, j);
      }
      assert Split(s, sep) == [s[..i]] + Split(rest, sep);
  }

  /** `parts.join(sep)`. */
  function Join(parts: seq<string>, sep: string): string
  {
    if parts == [] then ""
    else if |parts| == 1 then parts[0]
    else parts[0] + sep + Join(parts[1..], sep)
  }

  /** Joining the pieces back with the separator restores the string. */
  lemma {:induction false} JoinSplit(s: string, sep: string)
    requires |sep| > 0
    ensures Join(Split(s, sep), sep) == s
    decreases |s|
  {
    var r := IndexOf(s, sep);
    if r.Some? {
      var i := r.value;
      var rest := s[i + |sep|..];
      JoinSplit(rest, sep);
      SplitAt(s, sep, i);
      JoinCons(s[..i], Split(rest, sep), sep);
      Around(s, i, i + |sep|);
    }
  }

  /** Joining a first piece onto at least one more. */
  lemma JoinCons(head: string, tail: seq<string>, sep: string)
    requires |tail| >= 1
    ensures Join([head] + tail, sep) == head + sep + Join(tail, sep)
  {
    assert ([head] + tail)[1..] == tail;
  }

  /** A string is its prefix, a middle slice and its suffix. */
  lemma Around(s: string, i: nat, j: nat)
    requires i <= j <= |s|
    ensures s == s[..i] + s[i..j] + s[j..]
  {
  }

  /** A string is split into itself alone exactly when `sep` does not
      occur in it. */
  lemma SplitSingle(p: string, sep: string)
    requires |sep| > 0
    ensures Split(p, sep) == [p] <==> forall j :: 0 <= j <= |p| ==> !OccursAt(p, sep, j)
  {
    match IndexOf(p, sep)
    case None =>
    case Some(i) =>
      SplitAt(p, sep, i);
      assert |Split(p, sep)| >= 2;
      assert i <= |p| && OccursAt(p, sep, i);
  }

  /** A string without the first character of `sep` holds no occurrence
      of `sep`. */
  lemma FirstCharAbsent(p: string, sep: string)
    requires |sep| > 0 && sep[0] !in p
    ensures forall j :: 0 <= j <= |p| ==> !OccursAt(p, sep, j)
  {
    forall j | 0 <= j <= |p| ensures !OccursAt(p, sep, j) {
      if j + |sep| <= |p| {
        assert p[j..j + |sep|][0] == p[j] != sep[0];
      }
    }
  }

  /** The first occurrence of `sep` in `p + sep + rest` is right after `p`
      when `p` does not contain the first character of `sep`. */
  lemma IndexAfterPiece(p: string, sep: string, rest: string)
    requires |sep| > 0 && sep[0] !in p
    ensures IndexOf(p + sep + rest, sep) == Some(|p|)
  {
    var s := p + sep + rest;
    assert s[|p|..|p| + |sep|] == sep;
    assert OccursAt(s, sep, |p|);
    assert forall j :: 0 <= j < |p| ==> s[j] == p[j];
  }

  /** One step of `split`: the piece before the first separator, then the
      split of what follows it. */
  lemma SplitAt(s: string, sep: string, i: nat)
    requires |sep| > 0 && IndexOf(s, sep) == Some(i)
    ensures Split(s, sep) == [s[..i]] + Split(s[i + |sep|..], sep)
  {
  }

  /** Splitting a joined list gives the list back when no piece contains
      the first character of the separator. */
  lemma {:induction false} SplitJoin(parts: seq<string>, sep: string)
    requires |sep| > 0 && |parts| >= 1
    requires forall k :: 0 <= k < |parts| ==> sep[0] !in parts[k]
    ensures Split(Join(parts, sep), sep) == parts
    decreases |parts|
  {
    if |parts| == 1 {
      FirstCharAbsent(parts[0], sep);
      SplitSingle(parts[0], sep);
    } else {
      var p, tail := parts[0], parts[1..];
      assert forall k :: 0 <= k < |tail| ==> sep[0] !in tail[k] by {
        forall k | 0 <= k < |tail| ensures sep[0] !in tail[k] {
          assert tail[k] == parts[k + 1];
        }
      }
      var rest := Join(tail, sep);
      var s := p + sep + rest;
      assert Join(parts, sep) == s;
      IndexAfterPiece(p, sep, rest);
      SplitAt(s, sep, |p|);
      assert s[..|p|] == p && s[|p| + |sep|..] == rest;
      SplitJoin(tail, sep);
      assert parts == [p] + tail;
    }
  }

  /** ASCII lowering of one character (upper-case A-Z only). */
  function LowerChar(c: char): char
  {
    if 'A' <= c <= 'Z' then (c as int + 32) as char else c
  }

  /** `s.toLowerCase()` restricted to ASCII letters. */
  function Lower(s: string): (r: string)
    ensures |r| == |s|
    ensures forall i :: 0 <= i < |s| ==> r[i] == LowerChar(s[i])
    ensures forall i :: 0 <= i < |r| ==> !('A' <= r[i] <= 'Z')
  {
    seq(|s|, i requires 0 <= i < |s| => LowerChar(s[i]))
  }

  /** Lowering twice is lowering once. */
  lemma LowerIdempotent(s: string)
    ensures Lower(Lower(s)) == Lower(s)
  {
  }

  /** `hay.includes(needle)`. */
  predicate Includes(hay: string, needle: string)
  {
    exists j :: 0 <= j <= |hay| && OccursAt(hay, needle, j)
  }

  /** `s.length`: JavaScript strings count UTF-16 code units, so a
      character outside the Basic Multilingual Plane counts twice. */
  function Utf16Length(s: string): (n: nat)
    ensures |s| <= n <= 2 * |s|
    ensures (forall i :: 0 <= i < |s| ==> s[i] as int <= 0xFFFF) ==> n == |s|
  {
    if s == [] then 0
    else (if s[0] as int > 0xFFFF then 2 else 1) + Utf16Length(s[1..])
  }

  /** The UTF-16 length of a concatenation is the sum of the lengths. */
  lemma {:induction false} Utf16LengthAppend(a: string, b: string)
    ensures Utf16Length(a + b) == Utf16Length(a) + Utf16Length(b)
    decreases |a|
  {
    if a != [] {
      assert (a + b)[0] == a[0] && (a + b)[1..] == a[1..] + b;
      Utf16LengthAppend(a[1..], b);
    } else {
      assert a + b == b;
    }
  }

  /** `r` is `s` with some elements left out and the rest kept in order. */
  predicate IsSubsequence<T(==)>(r: seq<T>, s: seq<T>)
    decreases |s|
  {
    if s == [] then r == []
    else IsSubsequence(r, s[1..]) || (r != [] && r[0] == s[0] && IsSubsequence(r[1..], s[1..]))
  }
}
