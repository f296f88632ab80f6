/**
 * The user routes: reading and updating the profile, depositing funds (the
 * credit side of the ledger) and the caller's transaction history.
 */
module UserRoutes {
  import opened Wrappers
  import opened Refs
  import opened Seqs
  import opened Decimal
  import opened TransactionModel
  import opened Store

  // ---------------------------------------------------------------------
  // GET /api/user/profile and PUT /api/user/profile

  /** The profile, or the JSON `null` when the user document is gone. */
  function GetProfile(w: World, uid: UserId): (r: Option<User>)
    ensures r.Some? <==> uid in w.users
    ensures r.Some? ==> r.value == w.users[uid]
  {
    if uid in w.users then Some(w.users[uid]) else None
  }

  /** JavaScript truthiness of an optional string field: present and non-empty. */
  predicate Truthy(s: Option<string>) { s.Some? && s.value != "" }

  function ProfileSpec(w: World, uid: UserId, name: Option<string>, avatar: Option<string>)
    : (r: (World, Response<User>))
    ensures r.1.Fail? ==> r.0 == w
    ensures r.0.quizzes == w.quizzes && r.0.ledger == w.ledger
  {
    if uid !in w.users then (w, Fail(ServerError))
    else
      var u := w.users[uid];
      var u := if Truthy(name) then u.(name := name.value) else u;
      var u := if Truthy(avatar) then u.(avatar := avatar.value) else u;
      (w.(users := w.users[uid := u]), Ok(u))
  }

  /** PUT /api/user/profile: name and avatar are assigned only when truthy. */
  method UpdateProfile(db: Db, uid: UserId, name: Option<string>, avatar: Option<string>) returns (r: Response<User>)
    modifies db
    ensures (db.State(), r) == ProfileSpec(old(db.State()), uid, name, avatar)
  {
    if uid !in db.users {
      // assigning to, or saving, a missing user throws
      return Fail(ServerError);
    }
    var user := db.users[uid];
    if Truthy(name) {
      user := user.(name := name.value);
    }
    if Truthy(avatar) {
      user := user.(avatar := avatar.value);
    }
    db.users := db.users[uid := user];
    r := Ok(user);
  }

  /** The update touches the caller's name and avatar only, each only when a truthy value is supplied. */
  lemma ProfileChangesOnlyNameAvatar(w: World, uid: UserId, name: Option<string>, avatar: Option<string>)
    requires uid in w.users
    ensures var (w', r) := ProfileSpec(w, uid, name, avatar);
            var u := w.users[uid];
            && r == Ok(w'.users[uid])
            && w'.users == w.users[uid := w'.users[uid]]
            && w'.users[uid].name == (if Truthy(name) then name.value else u.name)
            && w'.users[uid].avatar == (if Truthy(avatar) then avatar.value else u.avatar)
            && w'.users[uid].balance == u.balance
            && w'.users[uid].gamesPlayed == u.gamesPlayed
  {
  }

  lemma ProfilePreservesConsistent(w: World, uid: UserId, name: Option<string>, avatar: Option<string>)
    requires Consistent(w)
    ensures Consistent(ProfileSpec(w, uid, name, avatar).0)
  {
    var w' := ProfileSpec(w, uid, name, avatar).0;
    SameBalancesAgree(w.users, w'.users, w.ledger);
  }

  // ---------------------------------------------------------------------
  // POST /api/user/deposit

  const Rupee: char := '\U{20B9}'

  function DepositDraft(u: UserId, amount: int, balanceAfter: int): TxDraft {
    TxDraft(Some(u), Some("deposit"), Some(amount), Some("Deposit of " + [Rupee] + IntToString(amount)),
            None, None, Some(balanceAfter))
  }

  function DepositRecord(u: UserId, amount: int, balanceAfter: int, now: int): (t: Transaction)
    ensures t.user == u && t.txType == TxType.Deposit && t.amount == amount && t.quiz.None?
    ensures t.status == Completed && t.balanceAfter == balanceAfter && t.createdAt == now
  {
    Validate(DepositDraft(u, amount, balanceAfter), now).value
  }

  /** The deposit handler as a transition of the whole state; the body is the new balance. */
  function DepositSpec(w: World, uid: UserId, amount: int, now: int): (r: (World, Response<int>))
    ensures r.1.Fail? ==> r.0 == w
    ensures r.0.quizzes == w.quizzes
  {
    if amount <= 0 then (w, Fail(InvalidAmount))
    else if uid !in w.users then (w, Fail(ServerError))
    else
      var u := w.users[uid].(balance := w.users[uid].balance + amount);
      (World(w.users[uid := u], w.quizzes, w.ledger + [DepositRecord(uid, amount, u.balance, now)]),
       Ok(u.balance))
  }

  /**
   * POST /api/user/deposit. As in the join route, the user save and the
   * ledger insert are separate writes in the source; here they are one step.
   */
  method Deposit(db: Db, uid: UserId, amount: int, now: int) returns (r: Response<int>)
    modifies db
    ensures (db.State(), r) == DepositSpec(old(db.State()), uid, amount, now)
  {
    if amount <= 0 {
      return Fail(InvalidAmount);
    }
    if uid !in db.users {
      // `user.balance += amount` on a missing user throws
      return Fail(ServerError);
    }
    var user := db.users[uid];
    user := user.(balance := user.balance + amount);
    db.users := db.users[uid := user];
    db.ledger := db.ledger + [DepositRecord(uid, amount, user.balance, now)];
    r := Ok(user.balance);
  }

  /** A non-positive amount is refused with 400 and changes nothing. */
  lemma DepositRejectsNonPositive(w: World, uid: UserId, amount: int, now: int)
    requires amount <= 0
    ensures DepositSpec(w, uid, amount, now) == (w, Fail(InvalidAmount))
    ensures Status(InvalidAmount) == 400
  {
  }

  /**
   * A positive deposit by a known user raises exactly that balance by the
   * amount, appends one deposit record holding the new balance and returns it.
   */
  lemma DepositCredits(w: World, uid: UserId, amount: int, now: int)
    requires amount > 0 && uid in w.users
    ensures var (w', r) := DepositSpec(w, uid, amount, now);
            && r == Ok(w.users[uid].balance + amount)
            && w'.users == w.users[uid := w.users[uid].(balance := w.users[uid].balance + amount)]
            && |w'.ledger| == |w.ledger| + 1 && w'.ledger[..|w.ledger|] == w.ledger
            && var t := w'.ledger[|w.ledger|];
               t.user == uid && t.txType == TxType.Deposit && t.amount == amount && t.balanceAfter == r.body
  {
  }

  lemma DepositPreservesConsistent(w: World, uid: UserId, amount: int, now: int)
    requires Consistent(w)
    ensures Consistent(DepositSpec(w, uid, amount, now).0)
  {
    var (w', r) := DepositSpec(w, uid, amount, now);
    if r.Ok? {
      var t := w'.ledger[|w.ledger|];
      assert w'.ledger == w.ledger + [t];
      RecordPreservesAgreement(w.users, w.ledger, uid, w'.users[uid], t);
    }
  }

  // ---------------------------------------------------------------------
  // GET /api/user/transactions

  const HistoryLimit: nat := 50

  /** The caller's records only, newest first, at most 50. */
  function TransactionHistory(w: World, uid: UserId): (r: seq<Transaction>)
    ensures |r| <= HistoryLimit
    ensures |r| == if |History(w.ledger, uid)| <= HistoryLimit then |History(w.ledger, uid)| else HistoryLimit
    ensures forall i :: 0 <= i < |r| ==> r[i].user == uid
    ensures forall i :: 0 <= i < |r| ==>
              var h := History(w.ledger, uid); r[i] == h[|h| - 1 - i]
  {
    Take(Reverse(History(w.ledger, uid)), HistoryLimit)
  }

  /**
   * The balance the profile reports is the snapshot of the caller's newest
   * ledger record, so the wallet page and the history never disagree.
   */
  lemma ProfileShowsLedgerBalance(w: World, uid: UserId)
    requires LedgerAgrees(w.users, w.ledger) && uid in w.users && History(w.ledger, uid) != []
    ensures GetProfile(w, uid).Some?
    ensures var h := History(w.ledger, uid);
            GetProfile(w, uid).value.balance == h[|h| - 1].balanceAfter
  {
    assert UserAgrees(w.users[uid], History(w.ledger, uid));
  }

  /** After an accepted deposit the profile shows the old balance plus the amount, and the same name and avatar. */
  lemma DepositShowsInProfile(w: World, uid: UserId, amount: int, now: int)
    requires DepositSpec(w, uid, amount, now).1.Ok?
    ensures GetProfile(w, uid).Some?
    ensures var p := GetProfile(DepositSpec(w, uid, amount, now).0, uid);
            && p.Some?
            && p.value.balance == GetProfile(w, uid).value.balance + amount
            && p.value.name == GetProfile(w, uid).value.name
            && p.value.avatar == GetProfile(w, uid).value.avatar
  {
  }

  /** The newest record of a user heads the list and carries that user's current balance. */
  lemma HistoryHeadIsBalance(w: World, uid: UserId)
    requires LedgerAgrees(w.users, w.ledger) && uid in w.users && History(w.ledger, uid) != []
    ensures TransactionHistory(w, uid) != []
    ensures TransactionHistory(w, uid)[0].balanceAfter == w.users[uid].balance
  {
    assert UserAgrees(w.users[uid], History(w.ledger, uid));
  }
}
