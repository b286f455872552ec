/**
 * The client's session store (context/AuthContext.tsx): the signed-in user and
 * its persisted copy, the guest flag, and the capped ledger of progress a guest
 * records before signing in, which is migrated to the server on sign-in.
 */
module AuthContext {
  import opened Wrappers
  import Text
  import opened Http
  import opened Time

  /** The most progress records a guest can hold. */
  const GuestProgressLimit: nat := 50

  /** Where the guest ledger is posted on sign-in. */
  const BatchUrl: string := "http://172.20.10.5:8080/api/user-progress/batch"

  /** One answer a guest gave, stamped with the instant it was recorded. */
  datatype GuestProgress = GuestProgress(flashcardId: int, isCorrect: bool, timestamp: Timestamp)

  /** The signed-in user; `id` is always the username. */
  datatype User = User(id: string, username: string, email: string, role: string, token: string)

  /** The batch upload of the ledger: its URL, its `Authorization` header and its records. */
  datatype BatchRequest = BatchRequest(url: string, authorization: string, records: seq<GuestProgress>)

  // ---------------------------------------------------------------------------
  // The ledger as a value
  // ---------------------------------------------------------------------------

  /**
   * The ledger after one `addGuestProgress` call: the record goes at the end when
   * there is room; at the limit the call is refused and nothing is evicted.
   */
  function Appended(ledger: seq<GuestProgress>, rec: GuestProgress): (r: seq<GuestProgress>)
    ensures ledger <= r && |r| <= |ledger| + 1
    ensures r != ledger <==> |ledger| < GuestProgressLimit
    ensures r != ledger ==> r[|ledger|] == rec
    ensures |ledger| <= GuestProgressLimit ==> |r| <= GuestProgressLimit
  {
    if |ledger| < GuestProgressLimit then ledger + [rec] else ledger
  }

  /** The ledger after a run of `addGuestProgress` calls, one after another. */
  function AppendedAll(ledger: seq<GuestProgress>, recs: seq<GuestProgress>): seq<GuestProgress>
    decreases |recs|
  {
    if recs == [] then ledger else AppendedAll(Appended(ledger, recs[0]), recs[1..])
  }

  function Min(a: int, b: int): int {
    if a <= b then a else b
  }

  /** Appending the first record and then `n` more is appending the first `n + 1`. */
  lemma TakeAfterFirst(ledger: seq<GuestProgress>, recs: seq<GuestProgress>, n: nat)
    requires n < |recs|
    ensures (ledger + [recs[0]]) + recs[1..][..n] == ledger + recs[..n + 1]
  {
    assert recs[1..][..n] == recs[1..n + 1];
    assert [recs[0]] + recs[1..n + 1] == recs[..n + 1];
  }

  /**
   * A run of sequential calls keeps the earliest records that fit and drops the
   * rest: the ledger never exceeds the limit and nothing already in it is lost.
   */
  lemma {:induction false} AppendedAllKeepsEarliest(ledger: seq<GuestProgress>, recs: seq<GuestProgress>)
    requires |ledger| <= GuestProgressLimit
    ensures AppendedAll(ledger, recs) == ledger + recs[..Min(|recs|, GuestProgressLimit - |ledger|)]
    ensures |AppendedAll(ledger, recs)| <= GuestProgressLimit
    decreases |recs|
  {
    if recs != [] {
      var next := Appended(ledger, recs[0]);
      AppendedAllKeepsEarliest(next, recs[1..]);
      if |ledger| < GuestProgressLimit {
        TakeAfterFirst(ledger, recs, Min(|recs| - 1, GuestProgressLimit - |next|));
      } else {
        assert recs[..0] == [];
        assert recs[1..][..0] == [];
      }
    }
  }

  /** The note `login` and `register` append to their result about the guest ledger. */
  function MigrationNote(count: nat, migrated: bool): (note: string)
    ensures count == 0 ==> note == ""
    ensures count > 0 && migrated ==>
      && Text.StartsWith(note, " (")
      && |note| > 2 + |Text.IntToDecimal(count)|
      && Text.ParseInteger(note[2..2 + |Text.IntToDecimal(count)|]) == Some(count)
      && note[2 + |Text.IntToDecimal(count)|..] == " progress records saved)"
    ensures count > 0 && !migrated ==> note == " (some progress may not have been saved)"
  {
    if count == 0 then ""
    else if migrated then
      var note := " (" + Text.IntToDecimal(count) + " progress records saved)";
      assert note[2..2 + |Text.IntToDecimal(count)|] == Text.IntToDecimal(count);
      assert note[2 + |Text.IntToDecimal(count)|..] == " progress records saved)";
      Text.DecimalRoundTrip(count);
      note
    else " (some progress may not have been saved)"
  }

  // ---------------------------------------------------------------------------
  // The provider
  // ---------------------------------------------------------------------------

  /** The state of `AuthProvider`, and `storedUser`, the entry saved under the key 'user'. */
  class AuthProvider {
    var user: Option<User>
    var loading: bool
    var guestProgress: seq<GuestProgress>
    var isGuest: bool
    var storedUser: Option<User>

    /** The ledger never holds more than the limit. */
    ghost predicate Valid()
      reads this
    {
      |guestProgress| <= GuestProgressLimit
    }

    /** The initial state: no user, still loading, an empty ledger, a guest. */
    constructor (stored: Option<User>)
      ensures user == None && loading && guestProgress == [] && isGuest
      ensures storedUser == stored
      ensures Valid()
    {
      user := None;
      loading := true;
      guestProgress := [];
      isGuest := true;
      storedUser := stored;
    }

    /**
     * `checkStoredAuth`: a saved user is restored and ends guest mode; no saved
     * user, or a read that fails, leaves a guest. Loading ends either way.
     */
    method CheckStoredAuth(readFails: bool)
      requires Valid()
      modifies this
      ensures Valid()
      ensures !loading
      ensures !readFails && old(storedUser).Some? ==> user == old(storedUser) && !isGuest
      ensures readFails || old(storedUser).None? ==> user == old(user) && isGuest
      ensures guestProgress == old(guestProgress) && storedUser == old(storedUser)
    {
      if readFails {
        isGuest := true;
      } else if storedUser.Some? {
        user := storedUser;
        isGuest := false;
      } else {
        isGuest := true;
      }
      loading := false;
    }

    /** `canAddMoreGuestProgress`. */
    function CanAddMoreGuestProgress(): (r: bool)
      reads this
      ensures r <==> |guestProgress| < GuestProgressLimit
    {
      |guestProgress| < GuestProgressLimit
    }

    /** `getGuestProgressCount`. */
    function GetGuestProgressCount(): (n: nat)
      reads this
      ensures n == |guestProgress|
    {
      |guestProgress|
    }

    /** `getToken`: the user's token, or `null` when there is no user or the token is empty. */
    function GetToken(): (t: Option<string>)
      reads this
      ensures t.Some? <==> user.Some? && user.value.token != ""
      ensures t.Some? ==> t.value == user.value.token
    {
      if user.Some? && user.value.token != "" then Some(user.value.token) else None
    }

    /**
     * `addGuestProgress`: appends one record stamped `now` when there is room and
     * says whether it did.
     */
    method AddGuestProgress(flashcardId: int, isCorrect: bool, now: Timestamp) returns (added: bool)
      requires Valid()
      modifies this
      ensures Valid()
      ensures added <==> |old(guestProgress)| < GuestProgressLimit
      ensures guestProgress == Appended(old(guestProgress), GuestProgress(flashcardId, isCorrect, now))
      ensures user == old(user) && loading == old(loading) && isGuest == old(isGuest)
      ensures storedUser == old(storedUser)
    {
      if !CanAddMoreGuestProgress() {
        return false;
      }
      guestProgress := guestProgress + [GuestProgress(flashcardId, isCorrect, now)];
      return true;
    }

    /** `clearGuestProgress`. */
    method ClearGuestProgress()
      requires Valid()
      modifies this
      ensures Valid()
      ensures guestProgress == []
      ensures user == old(user) && loading == old(loading) && isGuest == old(isGuest)
      ensures storedUser == old(storedUser)
    {
      guestProgress := [];
    }

    /**
     * `migrateGuestProgress`: an empty ledger succeeds without a request;
     * otherwise the whole ledger is posted with the token, and it is cleared
     * exactly when the server answers ok. A refusal or an error keeps it intact.
     */
    method MigrateGuestProgress(token: string, reply: Reply<()>) returns (ok: bool, request: Option<BatchRequest>)
      requires Valid()
      modifies this
      ensures Valid()
      ensures old(guestProgress) == [] ==> ok && request == None
      ensures old(guestProgress) != [] ==>
        && request == Some(BatchRequest(BatchUrl, "Bearer " + token, old(guestProgress)))
        && (ok <==> reply.Success?)
      ensures guestProgress == if ok then [] else old(guestProgress)
      ensures user == old(user) && loading == old(loading) && isGuest == old(isGuest)
      ensures storedUser == old(storedUser)
    {
      if |guestProgress| == 0 {
        return true, None;
      }
      request := Some(BatchRequest(BatchUrl, "Bearer " + token, guestProgress));
      match reply {
        case Success(_) =>
          ClearGuestProgress();
          ok := true;
        case HttpError(_, _) =>
          ok := false;
        case Threw(_) =>
          ok := false;
      }
    }

    /**
     * The sequence shared by `login` and `register`. A refused request rejects
     * with the server's text, or with `failure` when it is empty, and changes
     * nothing. An accepted one migrates a non-empty ledger with the new token
     * (`batch` is the request that migration posts),
     * signs the user in, and then persists the user; a failing write rejects
     * with its error after the user is already signed in.
     */
    method Authenticate(reply: Reply<AuthResponse>, failure: string, migration: Reply<()>, writeError: Option<string>)
      returns (outcome: Result<string, string>, batch: Option<BatchRequest>)
      requires Valid()
      modifies this
      ensures Valid()
      ensures loading == old(loading)
      ensures batch ==
        if reply.Success? && old(guestProgress) != []
        then Some(BatchRequest(BatchUrl, "Bearer " + reply.body.token, old(guestProgress)))
        else None
      ensures reply.HttpError? ==>
        && outcome == Err(if reply.text != "" then reply.text else failure)
        && user == old(user) && isGuest == old(isGuest) && storedUser == old(storedUser)
        && guestProgress == old(guestProgress)
      ensures reply.Threw? ==>
        && outcome == Err(reply.reason)
        && user == old(user) && isGuest == old(isGuest) && storedUser == old(storedUser)
        && guestProgress == old(guestProgress)
      ensures reply.Success? ==>
        var data := reply.body;
        var signedIn := User(data.username, data.username, data.email, data.role, data.token);
        && user == Some(signedIn) && !isGuest
        && (guestProgress == [] || guestProgress == old(guestProgress))
        && (old(guestProgress) == [] ==> guestProgress == [])
        && (old(guestProgress) != [] ==> (guestProgress == [] <==> migration.Success?))
        && (writeError.None? ==>
              storedUser == Some(signedIn)
              && outcome == Ok(MigrationNote(|old(guestProgress)|, migration.Success?)))
        && (writeError.Some? ==> storedUser == old(storedUser) && outcome == Err(writeError.value))
    {
      batch := None;
      match reply {
        case HttpError(_, text) =>
          outcome := Err(if text != "" then text else failure);
        case Threw(reason) =>
          outcome := Err(reason);
        case Success(data) =>
          var signedIn := User(data.username, data.username, data.email, data.role, data.token);
          var count := |guestProgress|;
          var note := "";
          if count > 0 {
            var migrated;
            migrated, batch := MigrateGuestProgress(data.token, migration);
            note := MigrationNote(count, migrated);
          }
          user := Some(signedIn);
          isGuest := false;
          if writeError.Some? {
            outcome := Err(writeError.value);
          } else {
            storedUser := Some(signedIn);
            outcome := Ok(note);
          }
      }
    }

    /** `login`. */
    method Login(reply: Reply<AuthResponse>, migration: Reply<()>, writeError: Option<string>)
      returns (outcome: Result<string, string>, batch: Option<BatchRequest>)
      requires Valid()
      modifies this
      ensures Valid()
      ensures loading == old(loading)
      ensures batch ==
        if reply.Success? && old(guestProgress) != []
        then Some(BatchRequest(BatchUrl, "Bearer " + reply.body.token, old(guestProgress)))
        else None
      ensures reply.HttpError? ==>
        && outcome == Err(if reply.text != "" then reply.text else "Login failed")
        && user == old(user) && isGuest == old(isGuest) && storedUser == old(storedUser)
        && guestProgress == old(guestProgress)
      ensures reply.Threw? ==>
        && outcome == Err(reply.reason)
        && user == old(user) && isGuest == old(isGuest) && storedUser == old(storedUser)
        && guestProgress == old(guestProgress)
      ensures reply.Success? ==>
        var data := reply.body;
        var signedIn := User(data.username, data.username, data.email, data.role, data.token);
        && user == Some(signedIn) && !isGuest
        && (old(guestProgress) == [] ==> guestProgress == [])
        && (old(guestProgress) != [] ==> guestProgress == if migration.Success? then [] else old(guestProgress))
        && (writeError.None? ==>
              storedUser == Some(signedIn)
              && outcome == Ok(MigrationNote(|old(guestProgress)|, migration.Success?)))
        && (writeError.Some? ==> storedUser == old(storedUser) && outcome == Err(writeError.value))
      ensures reply.Success? && reply.body.token != "" ==> GetToken() == Some(reply.body.token)
    {
      outcome, batch := Authenticate(reply, "Login failed", migration, writeError);
    }

    /** `register`. */
    method Register(reply: Reply<AuthResponse>, migration: Reply<()>, writeError: Option<string>)
      returns (outcome: Result<string, string>, batch: Option<BatchRequest>)
      requires Valid()
      modifies this
      ensures Valid()
      ensures loading == old(loading)
      ensures batch ==
        if reply.Success? && old(guestProgress) != []
        then Some(BatchRequest(BatchUrl, "Bearer " + reply.body.token, old(guestProgress)))
        else None
      ensures reply.HttpError? ==>
        && outcome == Err(if reply.text != "" then reply.text else "Registration failed")
        && user == old(user) && isGuest == old(isGuest) && storedUser == old(storedUser)
        && guestProgress == old(guestProgress)
      ensures reply.Threw? ==>
        && outcome == Err(reply.reason)
        && user == old(user) && isGuest == old(isGuest) && storedUser == old(storedUser)
        && guestProgress == old(guestProgress)
      ensures reply.Success? ==>
        var data := reply.body;
        var signedIn := User(data.username, data.username, data.email, data.role, data.token);
        && user == Some(signedIn) && !isGuest
        && (old(guestProgress) == [] ==> guestProgress == [])
        && (old(guestProgress) != [] ==> guestProgress == if migration.Success? then [] else old(guestProgress))
        && (writeError.None? ==>
              storedUser == Some(signedIn)
              && outcome == Ok(MigrationNote(|old(guestProgress)|, migration.Success?)))
        && (writeError.Some? ==> storedUser == old(storedUser) && outcome == Err(writeError.value))
      ensures reply.Success? && reply.body.token != "" ==> GetToken() == Some(reply.body.token)
    {
      outcome, batch := Authenticate(reply, "Registration failed", migration, writeError);
    }

    /**
     * `logout`: signs out and returns to guest mode whether or not removing the
     * saved user succeeds; a failed removal leaves the saved copy behind.
     */
    method Logout(removeFails: bool)
      requires Valid()
      modifies this
      ensures Valid()
      ensures user == None && isGuest && GetToken() == None
      ensures storedUser == if removeFails then old(storedUser) else None
      ensures guestProgress == old(guestProgress) && loading == old(loading)
    {
      user := None;
      isGuest := true;
      if !removeFails {
        storedUser := None;
      }
    }
  }
}
