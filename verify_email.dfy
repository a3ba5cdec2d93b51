/** The email-verification route: the server loader checks the link,
    exchanges the one-time token with the identity provider, then creates
    the user's profile row unless one exists (check, then insert); the
    page's client effect does the same and drives the `status` shown. */
module VerifyEmail {
  import opened Wrappers
  import opened Session

  /** A row of the `profiles` table. */
  datatype Profile = Profile(id: string, username: string, fullName: string, email: string, createdAt: string)

  /** A thrown value: an `Error` object carries a message, anything else
      does not. */
  datatype Thrown = ErrorObject(message: string) | OtherValue

  /** The message reported for a thrown value: an `Error`'s own message,
      or a fixed text for anything else. */
  function ThrownMessage(t: Thrown): string
  {
    match t
    case ErrorObject(message) => message
    case OtherValue => "An unexpected error occurred"
  }

  /** What `auth.verifyOtp` does: answers with an error, answers with
      data whose user may be missing, or throws. */
  datatype VerifyReply =
    | VerifyError(message: string)
    | VerifyData(user: Option<User>)
    | VerifyThrows(thrown: Thrown)

  /** What the store answers to an insert of one row. */
  datatype InsertReply =
    | InsertOk
    | InsertError(message: string)
    | InsertThrows(thrown: Thrown)

  /** The loader's JSON payload. Absent fields are `None`. */
  datatype LoaderData = LoaderData(success: bool, profileCreated: Option<bool>, error: Option<string>, user: Option<User>)

  /** `{ success: false, error: message }`. */
  function Failed(message: string): LoaderData
  {
    LoaderData(false, None, Some(message), None)
  }

  /** The link carries a non-empty `token` and `type=signup`. */
  predicate ValidLink(token: Option<string>, linkType: Option<string>)
  {
    token.Some? && token.value != "" && linkType == Some("signup")
  }

  /** A metadata entry, or the empty string when it is missing. */
  function MetadataOr(u: User, key: string): string
  {
    if key in u.metadata then u.metadata[key] else ""
  }

  /** The row inserted for a verified user: missing metadata and a missing
      email become empty strings; `now` is the creation timestamp. */
  function NewProfile(u: User, now: string): (p: Profile)
    ensures p.id == u.id
    ensures p.email == (if u.email.Some? then u.email.value else "")
    ensures p.username == (if "username" in u.metadata then u.metadata["username"] else "")
    ensures p.fullName == (if "full_name" in u.metadata then u.metadata["full_name"] else "")
    ensures p.createdAt == now
  {
    Profile(u.id, MetadataOr(u, "username"), MetadataOr(u, "full_name"),
            if u.email.Some? then u.email.value else "", now)
  }

  /** Some row has this id. */
  predicate HasProfile(rows: seq<Profile>, id: string)
  {
    exists i :: 0 <= i < |rows| && rows[i].id == id
  }

  /** No two rows share an id. */
  predicate UniqueIds(rows: seq<Profile>)
  {
    forall i, j :: 0 <= i < j < |rows| ==> rows[i].id != rows[j].id
  }

  /** The number of rows with this id. */
  function CountId(rows: seq<Profile>, id: string): (n: nat)
    ensures n <= |rows|
    ensures n == 0 <==> !HasProfile(rows, id)
  {
    if rows == [] then 0
    else
      assert forall i :: 1 <= i < |rows| ==> rows[i] == rows[1..][i - 1];
      (if rows[0].id == id then 1 else 0) + CountId(rows[1..], id)
  }

  /** With unique ids, each id has at most one row. */
  lemma {:induction false} UniqueIdsCount(rows: seq<Profile>, id: string)
    requires UniqueIds(rows)
    ensures CountId(rows, id) <= 1
    decreases |rows|
  {
    if rows != [] {
      assert UniqueIds(rows[1..]) by {
        forall i, j | 0 <= i < j < |rows| - 1 ensures rows[1..][i].id != rows[1..][j].id {
          assert rows[1..][i] == rows[i + 1] && rows[1..][j] == rows[j + 1];
        }
      }
      UniqueIdsCount(rows[1..], id);
      if rows[0].id == id {
        assert !HasProfile(rows[1..], id) by {
          forall i | 0 <= i < |rows| - 1 ensures rows[1..][i].id != id {
            assert rows[1..][i] == rows[i + 1];
          }
        }
      }
    }
  }

  /** Appending a row whose id is new keeps the ids unique. */
  lemma AppendNewId(rows: seq<Profile>, p: Profile)
    requires !HasProfile(rows, p.id)
    ensures UniqueIds(rows) ==> UniqueIds(rows + [p])
    ensures HasProfile(rows + [p], p.id)
  {
    assert (rows + [p])[|rows|] == p;
  }

  /** The `profiles` table the two code paths share. */
  class ProfileTable {
    var rows: seq<Profile>

    ghost predicate Valid()
      reads this
    {
      UniqueIds(rows)
    }

    constructor (initial: seq<Profile>)
      requires UniqueIds(initial)
      ensures Valid() && rows == initial
    {
      rows := initial;
    }

    /** The lookup of a profile by id: the select by id over the rows. */
    function Has(id: string): bool
      reads this
    {
      HasProfile(rows, id)
    }

    /** Inserting one row: it is added when the store accepts it. The
        caller has checked that the id is new. */
    method Insert(p: Profile, reply: InsertReply)
      requires Valid() && !HasProfile(rows, p.id)
      modifies this
      ensures Valid()
      ensures rows == if reply.InsertOk? then old(rows) + [p] else old(rows)
    {
      if reply.InsertOk? {
        AppendNewId(rows, p);
        rows := rows + [p];
      }
    }
  }

  // ---------------------------------------------------------------------
  // The server loader

  /** The loader's payload and the table afterwards, from the table before. */
  function Load(rows: seq<Profile>, token: Option<string>, linkType: Option<string>,
                verify: VerifyReply, insert: InsertReply, now: string): (r: (LoaderData, seq<Profile>))
    ensures UniqueIds(rows) ==> UniqueIds(r.1)
    ensures r.1 == rows || (verify.VerifyData? && verify.user.Some? && r.0.profileCreated == Some(true)
                            && r.1 == rows + [NewProfile(verify.user.value, now)])
  {
    if !ValidLink(token, linkType) then (Failed("Invalid verification link"), rows)
    else
      match verify
      case VerifyThrows(t) => (Failed(ThrownMessage(t)), rows)
      case VerifyError(message) => (Failed(message), rows)
      case VerifyData(None) => (Failed("User not found"), rows)
      case VerifyData(Some(u)) =>
        if HasProfile(rows, u.id) then (LoaderData(true, Some(false), None, Some(u)), rows)
        else
          match insert
          case InsertOk =>
            AppendNewId(rows, NewProfile(u, now));
            (LoaderData(true, Some(true), None, Some(u)), rows + [NewProfile(u, now)])
          case InsertError(message) => (LoaderData(true, Some(false), Some(message), Some(u)), rows)
          case InsertThrows(t) => (Failed(ThrownMessage(t)), rows)
  }

  /** `loader`: checks the link, verifies the token, then creates the
      profile unless it exists. */
  method Loader(store: ProfileTable, token: Option<string>, linkType: Option<string>,
                verify: VerifyReply, insert: InsertReply, now: string) returns (data: LoaderData)
    requires store.Valid()
    modifies store
    ensures store.Valid()
    ensures (data, store.rows) == Load(old(store.rows), token, linkType, verify, insert, now)
  {
    if token.None? || token.value == "" || linkType != Some("signup") {
      return Failed("Invalid verification link");
    }
    if verify.VerifyThrows? {
      return Failed(ThrownMessage(verify.thrown));
    }
    if verify.VerifyError? {
      return Failed(verify.message);
    }
    if verify.user.None? {
      return Failed("User not found");
    }
    var user := verify.user.value;
    var existing := store.Has(user.id);
    if !existing {
      store.Insert(NewProfile(user, now), insert);
      if insert.InsertThrows? {
        return Failed(ThrownMessage(insert.thrown));
      }
      if insert.InsertError? {
        return LoaderData(true, Some(false), Some(insert.message), Some(user));
      }
    }
    data := LoaderData(true, Some(!existing), None, Some(user));
  }

  /** A bad link, a provider error or a missing user fail without touching
      the table; a bad link fails before the provider is asked. */
  lemma LoadFailures(rows: seq<Profile>, token: Option<string>, linkType: Option<string>,
                     verify: VerifyReply, insert: InsertReply, now: string)
    ensures var r := Load(rows, token, linkType, verify, insert, now);
      && (!ValidLink(token, linkType) ==> r == (Failed("Invalid verification link"), rows))
      && (ValidLink(token, linkType) && verify.VerifyError? ==> r == (Failed(verify.message), rows))
      && (ValidLink(token, linkType) && verify == VerifyData(None) ==> r == (Failed("User not found"), rows))
      && (ValidLink(token, linkType) && verify.VerifyThrows? ==> r == (Failed(ThrownMessage(verify.thrown)), rows))
  {
  }

  /** The outcomes for a verified user: an existing profile is left alone;
      otherwise exactly one row is inserted, a failed insert still reports
      success with its message, and a thrown insert fails with the thrown
      message. */
  lemma LoadVerifiedUser(rows: seq<Profile>, token: Option<string>, linkType: Option<string>,
                         u: User, insert: InsertReply, now: string)
    requires ValidLink(token, linkType)
    ensures var r := Load(rows, token, linkType, VerifyData(Some(u)), insert, now);
      && (HasProfile(rows, u.id) ==> r == (LoaderData(true, Some(false), None, Some(u)), rows))
      && (!HasProfile(rows, u.id) && insert.InsertOk? ==>
            r == (LoaderData(true, Some(true), None, Some(u)), rows + [NewProfile(u, now)]))
      && (!HasProfile(rows, u.id) && insert.InsertError? ==>
            r == (LoaderData(true, Some(false), Some(insert.message), Some(u)), rows))
      && (!HasProfile(rows, u.id) && insert.InsertThrows? ==>
            r == (Failed(ThrownMessage(insert.thrown)), rows))
      && (HasProfile(r.1, u.id) <==> HasProfile(rows, u.id) || insert.InsertOk?)
  {
    if !HasProfile(rows, u.id) && insert.InsertOk? {
      assert (rows + [NewProfile(u, now)])[|rows|].id == u.id;
    }
  }

  /** Idempotence: once a run has left the user with a profile, a second
      run for the same user inserts nothing and reports
      `profileCreated: false`; the table never holds two rows for the id. */
  lemma LoadTwice(rows: seq<Profile>, token: Option<string>, linkType: Option<string>,
                  u: User, insert1: InsertReply, insert2: InsertReply, now1: string, now2: string)
    requires UniqueIds(rows) && ValidLink(token, linkType)
    requires Load(rows, token, linkType, VerifyData(Some(u)), insert1, now1).0.error.None?
    ensures var first := Load(rows, token, linkType, VerifyData(Some(u)), insert1, now1);
      var second := Load(first.1, token, linkType, VerifyData(Some(u)), insert2, now2);
      && second == (LoaderData(true, Some(false), None, Some(u)), first.1)
      && CountId(second.1, u.id) == 1
  {
    var first := Load(rows, token, linkType, VerifyData(Some(u)), insert1, now1);
    LoadVerifiedUser(rows, token, linkType, u, insert1, now1);
    assert HasProfile(first.1, u.id);
    UniqueIdsCount(first.1, u.id);
  }

  // ---------------------------------------------------------------------
  // The client effect

  /** The page's `status`: 'verifying', 'success' or 'error'. */
  datatype Status = Verifying | Verified | Errored

  /** The message shown on success. */
  const VerifiedMessage := "Email verified successfully! Redirecting to dashboard..."

  /** The client effect's final status and message and the table
      afterwards. An insert error is ignored; an exception is an error. */
  function ClientRun(rows: seq<Profile>, token: Option<string>, linkType: Option<string>,
                     verify: VerifyReply, insert: InsertReply, now: string): (r: (Status, string, seq<Profile>))
    ensures r.0 != Verifying
    ensures UniqueIds(rows) ==> UniqueIds(r.2)
    ensures r.0 == Verified <==>
      ValidLink(token, linkType) && verify.VerifyData? && verify.user.Some?
      && (HasProfile(rows, verify.user.value.id) || !insert.InsertThrows?)
    ensures r.2 == if ValidLink(token, linkType) && verify.VerifyData? && verify.user.Some?
                      && !HasProfile(rows, verify.user.value.id) && insert.InsertOk?
                   then rows + [NewProfile(verify.user.value, now)] else rows
    ensures r.0 == Verified ==> r.1 == VerifiedMessage
    ensures !ValidLink(token, linkType) ==> r.1 == "Invalid verification link"
    ensures ValidLink(token, linkType) && verify.VerifyError? ==> r.1 == verify.message
    ensures ValidLink(token, linkType) && verify == VerifyData(None) ==> r.1 == "User not found"
    ensures ValidLink(token, linkType) && verify.VerifyThrows? ==> r.1 == ThrownMessage(verify.thrown)
    ensures ValidLink(token, linkType) && verify.VerifyData? && verify.user.Some?
              && !HasProfile(rows, verify.user.value.id) && insert.InsertThrows?
            ==> r.1 == ThrownMessage(insert.thrown)
  {
    if !ValidLink(token, linkType) then (Errored, "Invalid verification link", rows)
    else
      match verify
      case VerifyThrows(t) => (Errored, ThrownMessage(t), rows)
      case VerifyError(message) => (Errored, message, rows)
      case VerifyData(None) => (Errored, "User not found", rows)
      case VerifyData(Some(u)) =>
        if HasProfile(rows, u.id) then (Verified, VerifiedMessage, rows)
        else
          match insert
          case InsertOk =>
            AppendNewId(rows, NewProfile(u, now));
            (Verified, VerifiedMessage, rows + [NewProfile(u, now)])
          case InsertError(_) => (Verified, VerifiedMessage, rows)
          case InsertThrows(t) => (Errored, ThrownMessage(t), rows)
  }

  /** The verification page's state. */
  class VerifyPage {
    var status: Status
    var message: string

    /** The page starts out verifying, with no message. */
    constructor ()
      ensures status == Verifying && message == ""
    {
      status := Verifying;
      message := "";
    }

    /** The effect: checks the link, verifies the token, creates the
        profile if missing, and sets `status` and `message`. */
    method RunVerification(store: ProfileTable, token: Option<string>, linkType: Option<string>,
                           verify: VerifyReply, insert: InsertReply, now: string)
      requires store.Valid()
      modifies this, store
      ensures store.Valid()
      ensures (status, message, store.rows) == ClientRun(old(store.rows), token, linkType, verify, insert, now)
    {
      if token.None? || token.value == "" || linkType != Some("signup") {
        status, message := Errored, "Invalid verification link";
        return;
      }
      if verify.VerifyThrows? {
        status, message := Errored, ThrownMessage(verify.thrown);
        return;
      }
      if verify.VerifyError? {
        status, message := Errored, verify.message;
        return;
      }
      if verify.user.None? {
        status, message := Errored, "User not found";
        return;
      }
      var user := verify.user.value;
      var profile := store.Has(user.id);
      if !profile {
        store.Insert(NewProfile(user, now), insert);
        if insert.InsertThrows? {
          status, message := Errored, ThrownMessage(insert.thrown);
          return;
        }
      }
      status, message := Verified, VerifiedMessage;
    }
  }

  /** The server loader and then the client effect on the same table, IF
      the provider accepts the client's second exchange of the same token
      and answers with the same user: after a loader run that succeeded
      without an insert error, the client finds the profile, inserts
      nothing and ends in 'success'. */
  lemma ServerThenClient(rows: seq<Profile>, token: Option<string>, linkType: Option<string>,
                         u: User, insert1: InsertReply, insert2: InsertReply, now1: string, now2: string)
    requires UniqueIds(rows) && ValidLink(token, linkType)
    requires Load(rows, token, linkType, VerifyData(Some(u)), insert1, now1).0.error.None?
    ensures var after := Load(rows, token, linkType, VerifyData(Some(u)), insert1, now1).1;
      && ClientRun(after, token, linkType, VerifyData(Some(u)), insert2, now2) == (Verified, VerifiedMessage, after)
      && CountId(after, u.id) == 1
  {
    var after := Load(rows, token, linkType, VerifyData(Some(u)), insert1, now1).1;
    LoadVerifiedUser(rows, token, linkType, u, insert1, now1);
    UniqueIdsCount(after, u.id);
  }

  /** The server loader and then the client effect on the same table when
      the one-time token is spent by the loader, so the provider refuses
      the client's exchange: the loader reported success and left exactly
      one row for the user, yet the page ends in 'error' with the
      provider's message and the table is unchanged. */
  lemma ServerThenClientTokenSpent(rows: seq<Profile>, token: Option<string>, linkType: Option<string>,
                                   u: User, insert1: InsertReply, insert2: InsertReply, now1: string,
                                   now2: string, refusal: string)
    requires UniqueIds(rows) && ValidLink(token, linkType)
    requires Load(rows, token, linkType, VerifyData(Some(u)), insert1, now1).0.error.None?
    ensures var first := Load(rows, token, linkType, VerifyData(Some(u)), insert1, now1);
      && first.0.success
      && ClientRun(first.1, token, linkType, VerifyError(refusal), insert2, now2) == (Errored, refusal, first.1)
      && CountId(first.1, u.id) == 1
  {
    var after := Load(rows, token, linkType, VerifyData(Some(u)), insert1, now1).1;
    LoadVerifiedUser(rows, token, linkType, u, insert1, now1);
    UniqueIdsCount(after, u.id);
  }
}
