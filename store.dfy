// The backend's database as a value: one sequence per table, rows in
// creation order, and the id counter that stands in for the generated
// `pillid`s and user ids. `Valid` is what every handler keeps true: unique
// ascending ids, every parent reference owned by the row's own owner, stored
// splits of the validated shape, and sessions, emails and budgets that belong
// to existing users.

module Store {
  import opened Common
  import opened Tables
  import opened Auth
  import opened Validation

  datatype BudgetData = BudgetData(name: string, currency: string, isDefault: bool)
  datatype AccountData = AccountData(budget: Id, name: string)
  datatype SupercategoryData = SupercategoryData(budget: Id, name: string)
  datatype CategoryData = CategoryData(budget: Id, supercategory: Id, name: string)
  datatype TransactionData = TransactionData(budget: Id, account: Id, date: Date, payee: Option<string>, memo: Option<string>)
  datatype AssignmentData = AssignmentData(budget: Id, category: Id, month: Date, amount: int)

  /** A row of `transaction_splits`; its owner is its transaction's. */
  datatype SplitRow = SplitRow(id: Id, transaction: Id, category: Id, memo: Option<string>,
                               inflow: int, outflow: int, deletedAt: Option<Time>)

  datatype UserEmail = UserEmail(user: Id, email: string, verifiedAt: Option<Time>)
  datatype AuthMethod = AuthMethod(user: Id, methodType: string, labelText: string)
  datatype OutboxMail = OutboxMail(to: string, subject: string, body: string)

  datatype State = State(
    users: seq<Id>,
    userEmails: seq<UserEmail>,
    authMethods: seq<AuthMethod>,
    magicLinkTokens: seq<MagicLinkTokenRow>,
    outbox: seq<OutboxMail>,
    sessions: seq<SessionRow>,
    budgets: seq<Row<BudgetData>>,
    accounts: seq<Row<AccountData>>,
    supercategories: seq<Row<SupercategoryData>>,
    categories: seq<Row<CategoryData>>,
    transactions: seq<Row<TransactionData>>,
    splits: seq<SplitRow>,
    assignments: seq<Row<AssignmentData>>,
    nextId: nat)

  const EmptyState := State([], [], [], [], [], [], [], [], [], [], [], [], [], 0)

  // The parent references of each kind of row.
  function AccountBudget(a: AccountData): Id { a.budget }
  function SupercategoryBudget(s: SupercategoryData): Id { s.budget }
  function CategoryBudget(c: CategoryData): Id { c.budget }
  function CategorySupercategory(c: CategoryData): Id { c.supercategory }
  function TransactionBudget(t: TransactionData): Id { t.budget }
  function TransactionAccount(t: TransactionData): Id { t.account }
  function AssignmentBudget(a: AssignmentData): Id { a.budget }
  function AssignmentCategory(a: AssignmentData): Id { a.category }

  /** Every row's parent (as `parentOf` names it) is a row of the same owner. */
  predicate RefsOwned<T, P>(rows: seq<Row<T>>, parents: seq<Row<P>>, parentOf: T -> Id)
  {
    forall i :: 0 <= i < |rows| ==> OwnedRow(parents, parentOf(rows[i].data), rows[i].owner)
  }

  /** A stored split: of the validated shape, of an existing transaction, and
      of a category owned by that transaction's owner. */
  predicate SplitStored(s: SplitRow, transactions: seq<Row<TransactionData>>, categories: seq<Row<CategoryData>>)
  {
    && WellShaped(SplitInput(s.category, s.memo, s.inflow, s.outflow))
    && OwnerOf(transactions, s.transaction).Some?
    && OwnedRow(categories, s.category, OwnerOf(transactions, s.transaction).value)
  }

  /** A month as `parse_projection_month` produces it and `to_char` lists it. */
  predicate ListableMonth(d: Date)
  {
    0 <= d.year <= 9999 && 1 <= d.month <= 12 && d.day == 1
  }

  /** No user has two default budgets. */
  predicate OneDefaultEach(budgets: seq<Row<BudgetData>>)
  {
    forall i, j :: 0 <= i < j < |budgets| && budgets[i].data.isDefault && budgets[j].data.isDefault ==>
      budgets[i].owner != budgets[j].owner
  }

  predicate IdsValid(st: State)
  {
    && IdsAscending(st.budgets, st.nextId)
    && IdsAscending(st.accounts, st.nextId)
    && IdsAscending(st.supercategories, st.nextId)
    && IdsAscending(st.categories, st.nextId)
    && IdsAscending(st.transactions, st.nextId)
    && IdsAscending(st.assignments, st.nextId)
    && (forall i :: 0 <= i < |st.users| ==> st.users[i] < st.nextId)
  }

  predicate UsersValid(st: State)
  {
    && (forall i :: 0 <= i < |st.budgets| ==> st.budgets[i].owner in st.users)
    && (forall i :: 0 <= i < |st.userEmails| ==> st.userEmails[i].user in st.users)
    && (forall i :: 0 <= i < |st.sessions| ==> st.sessions[i].user in st.users)
    && OneDefaultEach(st.budgets)
  }

  predicate RefsValid(st: State)
  {
    && RefsOwned(st.accounts, st.budgets, AccountBudget)
    && RefsOwned(st.supercategories, st.budgets, SupercategoryBudget)
    && RefsOwned(st.categories, st.budgets, CategoryBudget)
    && RefsOwned(st.categories, st.supercategories, CategorySupercategory)
    && RefsOwned(st.transactions, st.budgets, TransactionBudget)
    && RefsOwned(st.transactions, st.accounts, TransactionAccount)
    && RefsOwned(st.assignments, st.budgets, AssignmentBudget)
    && RefsOwned(st.assignments, st.categories, AssignmentCategory)
  }

  predicate SplitsValid(st: State)
  {
    forall i :: 0 <= i < |st.splits| ==> SplitStored(st.splits[i], st.transactions, st.categories)
  }

  predicate Valid(st: State)
  {
    && IdsValid(st)
    && UsersValid(st)
    && RefsValid(st)
    && SplitsValid(st)
    && (forall i :: 0 <= i < |st.assignments| ==> ListableMonth(st.assignments[i].data.month))
  }

  lemma {:induction false} EmptyStateValid()
    ensures Valid(EmptyState)
  {
  }

  // ------------------------------------------------------------ lookups

  /** `select user_id from user_emails where email = $1 limit 1`. */
  function FindUserByEmail(emails: seq<UserEmail>, email: string): (r: Option<Id>)
    ensures r.Some? ==> exists i :: 0 <= i < |emails| && emails[i].email == email && emails[i].user == r.value
    ensures r.None? <==> forall i :: 0 <= i < |emails| ==> emails[i].email != email
  {
    if emails == [] then None
    else if emails[0].email == email then Some(emails[0].user)
    else
      var r := FindUserByEmail(emails[1..], email);
      assert forall i :: 1 <= i < |emails| ==> emails[i] == emails[1..][i - 1];
      r
  }

  /** Whether `a` was verified no earlier than `b`, unverified rows last. */
  predicate VerifiedNoEarlier(a: Option<Time>, b: Option<Time>)
  {
    b.None? || (a.Some? && a.value >= b.value)
  }

  /** The index of the email `me` shows: among the user's rows, one verified
      last (`order by verified_at desc nulls last limit 1`), the first such. */
  function LatestEmailIndex(emails: seq<UserEmail>, user: Id): (r: Option<nat>)
    ensures r.None? <==> forall i :: 0 <= i < |emails| ==> emails[i].user != user
    ensures r.Some? ==> r.value < |emails| && emails[r.value].user == user
                        && forall i :: 0 <= i < |emails| && emails[i].user == user ==>
                             VerifiedNoEarlier(emails[r.value].verifiedAt, emails[i].verifiedAt)
  {
    if emails == [] then None
    else
      var rest := LatestEmailIndex(emails[1..], user);
      assert forall i :: 1 <= i < |emails| ==> emails[i] == emails[1..][i - 1];
      if emails[0].user != user then
        (if rest.Some? then Some(rest.value + 1) else None)
      else if rest.Some? && !VerifiedNoEarlier(emails[0].verifiedAt, emails[rest.value + 1].verifiedAt) then
        Some(rest.value + 1)
      else Some(0)
  }

  // ------------------------------------------------------------ sign-up

  const DefaultBudget := BudgetData("My Budget", "USD", true)
  const MagicLinkMethod := "magic_link_email"

  /** The sign-up block of `verify_magic_link` for a new email: a user, the
      verified email, the magic-link auth method and the default budget. */
  function WithNewUser(st: State, email: string, now: Time): (r: State)
    ensures r.users == st.users + [st.nextId] && r.nextId == st.nextId + 2
    ensures r.userEmails == st.userEmails + [UserEmail(st.nextId, email, Some(now))]
    ensures r.authMethods == st.authMethods + [AuthMethod(st.nextId, MagicLinkMethod, email)]
    ensures r.budgets == st.budgets + [Row(st.nextId + 1, st.nextId, DefaultBudget, None)]
    ensures r.magicLinkTokens == st.magicLinkTokens && r.outbox == st.outbox && r.sessions == st.sessions
    ensures r.accounts == st.accounts && r.supercategories == st.supercategories
            && r.categories == st.categories && r.transactions == st.transactions
            && r.splits == st.splits && r.assignments == st.assignments
  {
    var uid := st.nextId;
    st.(users := st.users + [uid],
        userEmails := st.userEmails + [UserEmail(uid, email, Some(now))],
        authMethods := st.authMethods + [AuthMethod(uid, MagicLinkMethod, email)],
        budgets := st.budgets + [Row(uid + 1, uid, DefaultBudget, None)],
        nextId := uid + 2)
  }

  /** A new user starts with exactly one budget, the default one. */
  lemma {:induction false} WithNewUserBudgets(st: State, email: string, now: Time)
    requires Valid(st)
    ensures var r := WithNewUser(st, email, now);
            ListOwned(r.budgets, st.nextId) == [Row(st.nextId + 1, st.nextId, DefaultBudget, None)]
  {
    var r := WithNewUser(st, email, now);
    NoRowsOfUnknownOwner(st.budgets, st.nextId, st.users);
    ListOwnedAppend(st.budgets, [Row(st.nextId + 1, st.nextId, DefaultBudget, None)], st.nextId);
  }

  lemma {:induction false} NoRowsOfUnknownOwner<T>(rows: seq<Row<T>>, owner: Id, users: seq<Id>)
    requires forall i :: 0 <= i < |rows| ==> rows[i].owner in users
    requires owner !in users
    ensures ListOwned(rows, owner) == []
  {
    if rows != [] {
      NoRowsOfUnknownOwner(rows[..|rows| - 1], owner, users);
    }
  }

  lemma {:induction false} ListOwnedAppend<T>(a: seq<Row<T>>, b: seq<Row<T>>, owner: Id)
    ensures ListOwned(a + b, owner) == ListOwned(a, owner) + ListOwned(b, owner)
    decreases |b|
  {
    if b != [] {
      var b' := b[..|b| - 1];
      assert (a + b)[..|a + b| - 1] == a + b';
      ListOwnedAppend(a, b', owner);
    } else {
      assert a + b == a;
    }
  }

  lemma {:induction false} WithNewUserValid(st: State, email: string, now: Time)
    requires Valid(st)
    ensures Valid(WithNewUser(st, email, now))
  {
    var r := WithNewUser(st, email, now);
    WithNewUserIds(st, email, now);
    WithNewUserUsers(st, email, now);
    WithNewUserRefs(st, email, now);
    assert SplitsValid(r);
  }

  lemma {:induction false} WithNewUserIds(st: State, email: string, now: Time)
    requires IdsValid(st)
    ensures IdsValid(WithNewUser(st, email, now))
  {
    var n := st.nextId;
    IdsValidBump(st, 2);
    IdsAscendingAppend(st.budgets, n + 1, Row(n + 1, n, DefaultBudget, None));
  }

  lemma {:induction false} WithNewUserUsers(st: State, email: string, now: Time)
    requires IdsValid(st) && UsersValid(st)
    ensures UsersValid(WithNewUser(st, email, now))
  {
    var n := st.nextId;
    forall i | 0 <= i < |st.budgets| ensures st.budgets[i].owner != n {
      assert st.budgets[i].owner in st.users;
    }
  }

  lemma {:induction false} WithNewUserRefs(st: State, email: string, now: Time)
    requires RefsValid(st)
    ensures RefsValid(WithNewUser(st, email, now))
  {
    var x := Row(st.nextId + 1, st.nextId, DefaultBudget, None);
    RefsOwnedParentsGrow(st.accounts, st.budgets, [x], AccountBudget);
    RefsOwnedParentsGrow(st.supercategories, st.budgets, [x], SupercategoryBudget);
    RefsOwnedParentsGrow(st.categories, st.budgets, [x], CategoryBudget);
    RefsOwnedParentsGrow(st.transactions, st.budgets, [x], TransactionBudget);
    RefsOwnedParentsGrow(st.assignments, st.budgets, [x], AssignmentBudget);
  }

  /** The rest of `verify_magic_link`: the matched token is consumed and a
      session of an existing user is opened. */
  lemma {:induction false} SignInValid(st: State, tokenId: Id, user: Id, hash: Digest, now: Time, expires: Time)
    requires Valid(st) && user in st.users
    ensures Valid(st.(magicLinkTokens := ConsumeToken(st.magicLinkTokens, tokenId, now),
                      sessions := st.sessions + [SessionRow(st.nextId, user, hash, expires, None)],
                      nextId := st.nextId + 1))
  {
    IdsValidBump(st, 1);
  }

  /** The user a verified address signs in as: the user the address is
      registered to, or else the user the sign-up block creates. */
  function SignInUser(st: State, email: string): Id
  {
    var known := FindUserByEmail(st.userEmails, email);
    if known.Some? then known.value else st.nextId
  }

  /** The writes of `verify_magic_link` once a usable token row is found:
      the sign-up block for an unknown address, the token consumed, and a
      session opened for the user. */
  function SignIn(st: State, tokenRow: MagicLinkTokenRow, sessionHash: Digest, now: Time): (r: State)
    ensures r.nextId > st.nextId
    ensures r.sessions == st.sessions
                          + [SessionRow(r.nextId - 1, SignInUser(st, tokenRow.email), sessionHash, now + SessionLifetime, None)]
    ensures r.magicLinkTokens == ConsumeToken(st.magicLinkTokens, tokenRow.id, now)
    ensures FindUserByEmail(st.userEmails, tokenRow.email).Some? ==>
              && r.users == st.users && r.userEmails == st.userEmails
              && r.authMethods == st.authMethods && r.budgets == st.budgets
              && r.nextId == st.nextId + 1
    ensures FindUserByEmail(st.userEmails, tokenRow.email).None? ==>
              var signedUp := WithNewUser(st, tokenRow.email, now);
              && r.users == signedUp.users && r.userEmails == signedUp.userEmails
              && r.authMethods == signedUp.authMethods && r.budgets == signedUp.budgets
              && r.nextId == st.nextId + 3
    ensures r.outbox == st.outbox && r.accounts == st.accounts
            && r.supercategories == st.supercategories && r.categories == st.categories
            && r.transactions == st.transactions && r.splits == st.splits
            && r.assignments == st.assignments
  {
    var base := if FindUserByEmail(st.userEmails, tokenRow.email).Some? then st else WithNewUser(st, tokenRow.email, now);
    base.(magicLinkTokens := ConsumeToken(base.magicLinkTokens, tokenRow.id, now),
          sessions := base.sessions + [SessionRow(base.nextId, SignInUser(st, tokenRow.email), sessionHash, now + SessionLifetime, None)],
          nextId := base.nextId + 1)
  }

  /** A sign-up registers the address: looking it up afterwards finds the
      new user, when it was not registered before. */
  lemma {:induction false} WithNewUserRegisters(st: State, email: string, now: Time)
    requires FindUserByEmail(st.userEmails, email).None?
    ensures FindUserByEmail(WithNewUser(st, email, now).userEmails, email) == Some(st.nextId)
  {
    FindUserByEmailAppend(st.userEmails, UserEmail(st.nextId, email, Some(now)), email);
  }

  lemma {:induction false} FindUserByEmailAppend(emails: seq<UserEmail>, e: UserEmail, email: string)
    requires FindUserByEmail(emails, email).None? && e.email == email
    ensures FindUserByEmail(emails + [e], email) == Some(e.user)
    decreases |emails|
  {
    if emails == [] {
      assert emails + [e] == [e];
    } else {
      assert (emails + [e])[1..] == emails[1..] + [e];
      FindUserByEmailAppend(emails[1..], e, email);
    }
  }

  /** A magic link signs in once: after `verify_magic_link` has consumed the
      row it matched, the same token is refused at every later time,
      provided no other row carries its digest. */
  lemma SignInConsumesLink(st: State, token: string, sessionHash: Digest, now: Time, later: Time)
    requires FindUsableToken(st.magicLinkTokens, Sha256(token), now).Some?
    requires forall j, k :: (0 <= j < |st.magicLinkTokens| && 0 <= k < |st.magicLinkTokens|
                             && st.magicLinkTokens[j].tokenHash == Sha256(token)
                             && st.magicLinkTokens[k].tokenHash == Sha256(token)) ==> j == k
    ensures var row := st.magicLinkTokens[FindUsableToken(st.magicLinkTokens, Sha256(token), now).value];
            FindUsableToken(SignIn(st, row, sessionHash, now).magicLinkTokens, Sha256(token), later).None?
  {
    ConsumedTokenIsRefused(st.magicLinkTokens, Sha256(token), now, later);
  }

  /** Signing in keeps the store valid, and keeps the single-budget rule
      where it holds; the session opened belongs to an existing user. */
  lemma {:induction false} SignInKeepsValid(st: State, tokenRow: MagicLinkTokenRow, sessionHash: Digest, now: Time, single: bool)
    requires Valid(st) && (single ==> OneBudgetEach(st.budgets))
    ensures Valid(SignIn(st, tokenRow, sessionHash, now))
    ensures single ==> OneBudgetEach(SignIn(st, tokenRow, sessionHash, now).budgets)
    ensures SignInUser(st, tokenRow.email) in SignIn(st, tokenRow, sessionHash, now).users
  {
    if FindUserByEmail(st.userEmails, tokenRow.email).Some? {
      SignInKnownValid(st, tokenRow, sessionHash, now);
    } else {
      SignInNewValid(st, tokenRow, sessionHash, now, single);
    }
  }

  lemma {:induction false} SignInKnownValid(st: State, tokenRow: MagicLinkTokenRow, sessionHash: Digest, now: Time)
    requires Valid(st) && FindUserByEmail(st.userEmails, tokenRow.email).Some?
    ensures var r := SignIn(st, tokenRow, sessionHash, now);
            Valid(r) && r.budgets == st.budgets && SignInUser(st, tokenRow.email) in r.users
  {
    FindUserByEmailKnown(st, tokenRow.email);
    SignInValid(st, tokenRow.id, SignInUser(st, tokenRow.email), sessionHash, now, now + SessionLifetime);
  }

  lemma {:induction false} SignInNewValid(st: State, tokenRow: MagicLinkTokenRow, sessionHash: Digest, now: Time, single: bool)
    requires Valid(st) && (single ==> OneBudgetEach(st.budgets)) && FindUserByEmail(st.userEmails, tokenRow.email).None?
    ensures var r := SignIn(st, tokenRow, sessionHash, now);
            Valid(r) && (single ==> OneBudgetEach(r.budgets)) && SignInUser(st, tokenRow.email) in r.users
  {
    var base := WithNewUser(st, tokenRow.email, now);
    WithNewUserValid(st, tokenRow.email, now);
    if single {
      WithNewUserOneBudget(st, tokenRow.email, now);
    }
    SignInValid(base, tokenRow.id, st.nextId, sessionHash, now, now + SessionLifetime);
  }

  /** A known email belongs to an existing user. */
  lemma {:induction false} FindUserByEmailKnown(st: State, email: string)
    requires Valid(st) && FindUserByEmail(st.userEmails, email).Some?
    ensures FindUserByEmail(st.userEmails, email).value in st.users
  {
    var i :| 0 <= i < |st.userEmails| && st.userEmails[i].email == email
             && st.userEmails[i].user == FindUserByEmail(st.userEmails, email).value;
  }

  /** Requesting a sign-in link adds a token row and a mail and touches no
      other table. */
  lemma {:induction false} TokenRequestedValid(st: State, token: MagicLinkTokenRow, mail: OutboxMail)
    requires Valid(st)
    ensures Valid(st.(magicLinkTokens := st.magicLinkTokens + [token.(id := st.nextId)],
                      outbox := st.outbox + [mail], nextId := st.nextId + 1))
  {
    IdsValidBump(st, 1);
  }

  /** The single-budget rule (multi-budget mode off): no user owns two
      budget rows. */
  predicate OneBudgetEach(budgets: seq<Row<BudgetData>>)
  {
    forall i, j :: 0 <= i < j < |budgets| ==> budgets[i].owner != budgets[j].owner
  }

  /** A sign-up keeps the single-budget rule: the new user had no budget. */
  lemma {:induction false} WithNewUserOneBudget(st: State, email: string, now: Time)
    requires Valid(st) && OneBudgetEach(st.budgets)
    ensures OneBudgetEach(WithNewUser(st, email, now).budgets)
  {
    forall i | 0 <= i < |st.budgets| ensures st.budgets[i].owner != st.nextId {
      assert st.budgets[i].owner in st.users;
    }
  }

  /** `create_budget` with multi-budget mode off only inserts for a caller
      without budgets, which keeps the single-budget rule. */
  lemma {:induction false} AddBudgetOneBudget(budgets: seq<Row<BudgetData>>, x: Row<BudgetData>)
    requires OneBudgetEach(budgets) && |ListOwned(budgets, x.owner)| == 0
    ensures OneBudgetEach(budgets + [x])
  {
    forall i | 0 <= i < |budgets| ensures budgets[i].owner != x.owner {
      var b := budgets[i];
      assert b.owner == x.owner ==> b in ListOwned(budgets, x.owner);
    }
  }

  /** An authenticated caller is always an existing user. */
  lemma {:induction false} AuthenticatedCallerExists(st: State, header: Option<string>, now: Time)
    requires Valid(st) && Authenticate(st.sessions, header, now).Ok?
    ensures Authenticate(st.sessions, header, now).value in st.users
  {
  }

  // ------------------------------------------------------------ generic steps

  lemma {:induction false} IdsValidBump(st: State, k: nat)
    requires IdsValid(st)
    ensures IdsValid(st.(nextId := st.nextId + k))
  {
    IdsAscendingBump(st.budgets, st.nextId, st.nextId + k);
    IdsAscendingBump(st.accounts, st.nextId, st.nextId + k);
    IdsAscendingBump(st.supercategories, st.nextId, st.nextId + k);
    IdsAscendingBump(st.categories, st.nextId, st.nextId + k);
    IdsAscendingBump(st.transactions, st.nextId, st.nextId + k);
    IdsAscendingBump(st.assignments, st.nextId, st.nextId + k);
  }

  /** Spending ids on rows outside the checked tables (tokens, mails,
      sessions of existing users) keeps the store valid. */
  lemma {:induction false} BumpValid(st: State, k: nat)
    requires Valid(st)
    ensures Valid(st.(nextId := st.nextId + k))
  {
    IdsValidBump(st, k);
  }

  lemma {:induction false} RefsOwnedAppendChild<T, P>(rows: seq<Row<T>>, parents: seq<Row<P>>, parentOf: T -> Id, x: Row<T>)
    requires RefsOwned(rows, parents, parentOf) && OwnedRow(parents, parentOf(x.data), x.owner)
    ensures RefsOwned(rows + [x], parents, parentOf)
  {
  }

  lemma {:induction false} RefsOwnedParentsGrow<T, P>(rows: seq<Row<T>>, parents: seq<Row<P>>, more: seq<Row<P>>, parentOf: T -> Id)
    requires RefsOwned(rows, parents, parentOf)
    ensures RefsOwned(rows, parents + more, parentOf)
  {
    forall i | 0 <= i < |rows| ensures OwnedRow(parents + more, parentOf(rows[i].data), rows[i].owner) {
      OwnedRowKept(parents + more, parents, parentOf(rows[i].data), rows[i].owner);
    }
  }

  lemma {:induction false} RefsOwnedParentsKept<T, P>(rows: seq<Row<T>>, parents: seq<Row<P>>, parents': seq<Row<P>>, parentOf: T -> Id)
    requires RefsOwned(rows, parents, parentOf) && SameKeys(parents', parents)
    ensures RefsOwned(rows, parents', parentOf)
  {
    forall i | 0 <= i < |rows| ensures OwnedRow(parents', parentOf(rows[i].data), rows[i].owner) {
      OwnedRowKept(parents', parents, parentOf(rows[i].data), rows[i].owner);
    }
  }

  lemma {:induction false} RefsOwnedReplace<T, P>(rows: seq<Row<T>>, parents: seq<Row<P>>, parentOf: T -> Id, id: Id, owner: Id, data: T)
    requires RefsOwned(rows, parents, parentOf) && OwnedRow(parents, parentOf(data), owner)
    ensures RefsOwned(Replace(rows, id, owner, data), parents, parentOf)
  {
  }

  lemma {:induction false} RefsOwnedSoftDelete<T, P>(rows: seq<Row<T>>, parents: seq<Row<P>>, parentOf: T -> Id, id: Id, owner: Id, now: Time)
    requires RefsOwned(rows, parents, parentOf)
    ensures RefsOwned(SoftDelete(rows, id, owner, now), parents, parentOf)
  {
  }

  /** Splits stay valid when their transactions and categories keep their
      ids and owners, or only gain rows. */
  lemma {:induction false} SplitsKept(splits: seq<SplitRow>, ts: seq<Row<TransactionData>>, cs: seq<Row<CategoryData>>,
                   ts': seq<Row<TransactionData>>, cs': seq<Row<CategoryData>>)
    requires forall i :: 0 <= i < |splits| ==> SplitStored(splits[i], ts, cs)
    requires SameKeys(ts', ts) || (|ts| <= |ts'| && ts'[..|ts|] == ts)
    requires SameKeys(cs', cs) || (|cs| <= |cs'| && cs'[..|cs|] == cs)
    ensures forall i :: 0 <= i < |splits| ==> SplitStored(splits[i], ts', cs')
  {
    forall i | 0 <= i < |splits| ensures SplitStored(splits[i], ts', cs') {
      var s := splits[i];
      if SameKeys(ts', ts) {
        OwnerOfSameKeys(ts', ts, s.transaction);
      } else {
        OwnerOfAppend(ts, ts'[|ts|..], s.transaction);
        assert ts' == ts + ts'[|ts|..];
      }
      OwnedRowKept(cs', cs, s.category, OwnerOf(ts, s.transaction).value);
    }
  }

  // ------------------------------------------------------------ writes

  /** `create_budget`: a non-default budget of an existing user. */
  lemma {:induction false} AddBudgetValid(st: State, caller: Id, name: string, currency: string)
    requires Valid(st) && caller in st.users
    ensures Valid(st.(budgets := st.budgets + [Row(st.nextId, caller, BudgetData(name, currency, false), None)],
                      nextId := st.nextId + 1))
  {
    var x := Row(st.nextId, caller, BudgetData(name, currency, false), None);
    IdsValidBump(st, 1);
    IdsAscendingAppend(st.budgets, st.nextId, x);
    RefsOwnedParentsGrow(st.accounts, st.budgets, [x], AccountBudget);
    RefsOwnedParentsGrow(st.supercategories, st.budgets, [x], SupercategoryBudget);
    RefsOwnedParentsGrow(st.categories, st.budgets, [x], CategoryBudget);
    RefsOwnedParentsGrow(st.transactions, st.budgets, [x], TransactionBudget);
    RefsOwnedParentsGrow(st.assignments, st.budgets, [x], AssignmentBudget);
  }

  /** `create_account`: the account's budget is the caller's. */
  lemma {:induction false} AddAccountValid(st: State, caller: Id, data: AccountData)
    requires Valid(st) && OwnedRow(st.budgets, data.budget, caller)
    ensures Valid(st.(accounts := st.accounts + [Row(st.nextId, caller, data, None)], nextId := st.nextId + 1))
  {
    var x := Row(st.nextId, caller, data, None);
    IdsValidBump(st, 1);
    IdsAscendingAppend(st.accounts, st.nextId, x);
    RefsOwnedParentsGrow(st.transactions, st.accounts, [x], TransactionAccount);
  }

  /** `update_account`: the new budget is the caller's. */
  lemma {:induction false} UpdateAccountValid(st: State, id: Id, caller: Id, data: AccountData)
    requires Valid(st) && OwnedRow(st.budgets, data.budget, caller)
    ensures Valid(st.(accounts := Replace(st.accounts, id, caller, data)))
  {
    var accounts' := Replace(st.accounts, id, caller, data);
    SameKeysKeepAscending(accounts', st.accounts, st.nextId);
    RefsOwnedReplace(st.accounts, st.budgets, AccountBudget, id, caller, data);
    RefsOwnedParentsKept(st.transactions, st.accounts, accounts', TransactionAccount);
  }

  /** `delete_account`. */
  lemma {:induction false} DeleteAccountValid(st: State, id: Id, caller: Id, now: Time)
    requires Valid(st)
    ensures Valid(st.(accounts := SoftDelete(st.accounts, id, caller, now)))
  {
    var accounts' := SoftDelete(st.accounts, id, caller, now);
    SameKeysKeepAscending(accounts', st.accounts, st.nextId);
    RefsOwnedSoftDelete(st.accounts, st.budgets, AccountBudget, id, caller, now);
    RefsOwnedParentsKept(st.transactions, st.accounts, accounts', TransactionAccount);
  }

  /** `create_supercategory`: the supercategory's budget is the caller's. */
  lemma {:induction false} AddSupercategoryValid(st: State, caller: Id, data: SupercategoryData)
    requires Valid(st) && OwnedRow(st.budgets, data.budget, caller)
    ensures Valid(st.(supercategories := st.supercategories + [Row(st.nextId, caller, data, None)],
                      nextId := st.nextId + 1))
  {
    var x := Row(st.nextId, caller, data, None);
    IdsValidBump(st, 1);
    IdsAscendingAppend(st.supercategories, st.nextId, x);
    RefsOwnedParentsGrow(st.categories, st.supercategories, [x], CategorySupercategory);
  }

  lemma {:induction false} UpdateSupercategoryValid(st: State, id: Id, caller: Id, data: SupercategoryData)
    requires Valid(st) && OwnedRow(st.budgets, data.budget, caller)
    ensures Valid(st.(supercategories := Replace(st.supercategories, id, caller, data)))
  {
    var rows' := Replace(st.supercategories, id, caller, data);
    SameKeysKeepAscending(rows', st.supercategories, st.nextId);
    RefsOwnedReplace(st.supercategories, st.budgets, SupercategoryBudget, id, caller, data);
    RefsOwnedParentsKept(st.categories, st.supercategories, rows', CategorySupercategory);
  }

  lemma {:induction false} DeleteSupercategoryValid(st: State, id: Id, caller: Id, now: Time)
    requires Valid(st)
    ensures Valid(st.(supercategories := SoftDelete(st.supercategories, id, caller, now)))
  {
    var rows' := SoftDelete(st.supercategories, id, caller, now);
    SameKeysKeepAscending(rows', st.supercategories, st.nextId);
    RefsOwnedSoftDelete(st.supercategories, st.budgets, SupercategoryBudget, id, caller, now);
    RefsOwnedParentsKept(st.categories, st.supercategories, rows', CategorySupercategory);
  }

  /** `create_category`: budget and supercategory are the caller's. */
  lemma {:induction false} AddCategoryValid(st: State, caller: Id, data: CategoryData)
    requires Valid(st) && OwnedRow(st.budgets, data.budget, caller)
    requires OwnedRow(st.supercategories, data.supercategory, caller)
    ensures Valid(st.(categories := st.categories + [Row(st.nextId, caller, data, None)], nextId := st.nextId + 1))
  {
    var x := Row(st.nextId, caller, data, None);
    IdsValidBump(st, 1);
    IdsAscendingAppend(st.categories, st.nextId, x);
    RefsOwnedParentsGrow(st.assignments, st.categories, [x], AssignmentCategory);
    SplitsKept(st.splits, st.transactions, st.categories, st.transactions, st.categories + [x]);
  }

  lemma {:induction false} UpdateCategoryValid(st: State, id: Id, caller: Id, data: CategoryData)
    requires Valid(st) && OwnedRow(st.budgets, data.budget, caller)
    requires OwnedRow(st.supercategories, data.supercategory, caller)
    ensures Valid(st.(categories := Replace(st.categories, id, caller, data)))
  {
    var rows' := Replace(st.categories, id, caller, data);
    SameKeysKeepAscending(rows', st.categories, st.nextId);
    RefsOwnedReplace(st.categories, st.budgets, CategoryBudget, id, caller, data);
    RefsOwnedReplace(st.categories, st.supercategories, CategorySupercategory, id, caller, data);
    RefsOwnedParentsKept(st.assignments, st.categories, rows', AssignmentCategory);
    SplitsKept(st.splits, st.transactions, st.categories, st.transactions, rows');
  }

  lemma {:induction false} DeleteCategoryValid(st: State, id: Id, caller: Id, now: Time)
    requires Valid(st)
    ensures Valid(st.(categories := SoftDelete(st.categories, id, caller, now)))
  {
    var rows' := SoftDelete(st.categories, id, caller, now);
    SameKeysKeepAscending(rows', st.categories, st.nextId);
    RefsOwnedSoftDelete(st.categories, st.budgets, CategoryBudget, id, caller, now);
    RefsOwnedSoftDelete(st.categories, st.supercategories, CategorySupercategory, id, caller, now);
    RefsOwnedParentsKept(st.assignments, st.categories, rows', AssignmentCategory);
    SplitsKept(st.splits, st.transactions, st.categories, st.transactions, rows');
  }

  /** `create_category_assignment`: budget and category are the caller's and
      the month is a parsed one. */
  lemma {:induction false} AddAssignmentValid(st: State, caller: Id, data: AssignmentData)
    requires Valid(st) && OwnedRow(st.budgets, data.budget, caller)
    requires OwnedRow(st.categories, data.category, caller) && ListableMonth(data.month)
    ensures Valid(st.(assignments := st.assignments + [Row(st.nextId, caller, data, None)], nextId := st.nextId + 1))
  {
    var x := Row(st.nextId, caller, data, None);
    var st' := st.(assignments := st.assignments + [x], nextId := st.nextId + 1);
    AddedAssignmentIds(st, x);
    AddedAssignmentRefs(st, x);
    AddedAssignmentMonths(st.assignments, x);
    assert UsersValid(st') && SplitsValid(st') by {
      assert st'.users == st.users && st'.budgets == st.budgets && st'.userEmails == st.userEmails;
      assert st'.sessions == st.sessions && st'.splits == st.splits;
      assert st'.transactions == st.transactions && st'.categories == st.categories;
    }
  }

  lemma {:induction false} AddedAssignmentIds(st: State, x: Row<AssignmentData>)
    requires IdsValid(st) && x.id == st.nextId
    ensures IdsValid(st.(assignments := st.assignments + [x], nextId := st.nextId + 1))
  {
    IdsValidBump(st, 1);
    IdsAscendingAppend(st.assignments, st.nextId, x);
  }

  lemma {:induction false} AddedAssignmentRefs(st: State, x: Row<AssignmentData>)
    requires RefsValid(st) && OwnedRow(st.budgets, x.data.budget, x.owner) && OwnedRow(st.categories, x.data.category, x.owner)
    ensures RefsValid(st.(assignments := st.assignments + [x], nextId := st.nextId + 1))
  {
    RefsOwnedAppendChild(st.assignments, st.budgets, AssignmentBudget, x);
    RefsOwnedAppendChild(st.assignments, st.categories, AssignmentCategory, x);
  }

  lemma {:induction false} AddedAssignmentMonths(rows: seq<Row<AssignmentData>>, x: Row<AssignmentData>)
    requires forall i :: 0 <= i < |rows| ==> ListableMonth(rows[i].data.month)
    requires ListableMonth(x.data.month)
    ensures forall i :: 0 <= i < |rows + [x]| ==> ListableMonth((rows + [x])[i].data.month)
  {
  }

  // ------------------------------------------------------------ transactions

  /** The join a split insert puts on its category: live, the caller's, and
      in the transaction's budget. */
  predicate CategoryFits(categories: seq<Row<CategoryData>>, caller: Id, budget: Id, category: Id)
  {
    var c := FindLiveOwned(categories, category, caller);
    c.Some? && c.value.data.budget == budget
  }

  /** The splits the insert loop of `create_transaction` / `update_transaction`
      stores AS WRITTEN: each `insert .. select` adds its row only when the
      category join finds a row, and otherwise inserts nothing without an
      error, so a split with an unusable category is dropped silently. */
  function AcceptedSplits(categories: seq<Row<CategoryData>>, caller: Id, budget: Id, splits: seq<SplitInput>): (r: seq<SplitInput>)
    ensures |r| <= |splits|
    ensures forall k :: 0 <= k < |r| ==> r[k] in splits && CategoryFits(categories, caller, budget, r[k].category)
    ensures forall k :: 0 <= k < |splits| && CategoryFits(categories, caller, budget, splits[k].category) ==> splits[k] in r
  {
    if splits == [] then []
    else
      var last := splits[|splits| - 1];
      assert splits == splits[..|splits| - 1] + [last];
      AcceptedSplits(categories, caller, budget, splits[..|splits| - 1])
        + (if CategoryFits(categories, caller, budget, last.category) then [last] else [])
  }

  /** The as-written loop keeps the request's order: it filters each part of
      the list on its own and puts the results side by side. */
  lemma {:induction false} AcceptedSplitsAppend(categories: seq<Row<CategoryData>>, caller: Id, budget: Id,
                                               a: seq<SplitInput>, b: seq<SplitInput>)
    ensures AcceptedSplits(categories, caller, budget, a + b)
            == AcceptedSplits(categories, caller, budget, a) + AcceptedSplits(categories, caller, budget, b)
    decreases |b|
  {
    if b != [] {
      var b' := b[..|b| - 1];
      assert (a + b)[..|a + b| - 1] == a + b';
      assert (a + b)[|a + b| - 1] == b[|b| - 1];
      AcceptedSplitsAppend(categories, caller, budget, a, b');
    } else {
      assert a + b == a;
    }
  }

  /** The check the handlers are meant to make (and the model makes): every
      split's category must fit, otherwise the whole request is BAD_REQUEST
      and nothing is written. */
  function CheckSplitCategories(categories: seq<Row<CategoryData>>, caller: Id, budget: Id, splits: seq<SplitInput>): (r: Result<()>)
    ensures r.Ok? <==> forall k :: 0 <= k < |splits| ==> CategoryFits(categories, caller, budget, splits[k].category)
    ensures r.Err? ==> r.status == BadRequest
  {
    if splits == [] then Ok(())
    else if !CategoryFits(categories, caller, budget, splits[0].category) then Err(BadRequest)
    else
      var rest := CheckSplitCategories(categories, caller, budget, splits[1..]);
      assert forall k :: 1 <= k < |splits| ==> splits[k] == splits[1..][k - 1];
      rest
  }

  /** The corrected check passes exactly when the as-written loop would have
      stored every split; whenever the loop would drop one, it refuses. */
  lemma {:induction false} CheckSplitCategoriesAllOrNothing(categories: seq<Row<CategoryData>>, caller: Id, budget: Id, splits: seq<SplitInput>)
    ensures CheckSplitCategories(categories, caller, budget, splits).Ok?
            <==> AcceptedSplits(categories, caller, budget, splits) == splits
  {
    if splits != [] {
      var front := splits[..|splits| - 1];
      CheckSplitCategoriesAllOrNothing(categories, caller, budget, front);
      CheckSplitCategoriesStep(categories, caller, budget, splits);
      AcceptedSplitsStep(categories, caller, budget, splits);
    }
  }

  /** The check passes on a listing exactly when it passes on all but the
      last split and the last one fits. */
  lemma CheckSplitCategoriesStep(categories: seq<Row<CategoryData>>, caller: Id, budget: Id, splits: seq<SplitInput>)
    requires splits != []
    ensures var front := splits[..|splits| - 1];
            CheckSplitCategories(categories, caller, budget, splits).Ok?
            <==> CheckSplitCategories(categories, caller, budget, front).Ok?
                 && CategoryFits(categories, caller, budget, splits[|splits| - 1].category)
  {
    var front := splits[..|splits| - 1];
    assert forall k :: 0 <= k < |front| ==> front[k] == splits[k];
  }

  /** The as-written loop keeps every split exactly when it keeps all but
      the last and the last one fits. */
  lemma AcceptedSplitsStep(categories: seq<Row<CategoryData>>, caller: Id, budget: Id, splits: seq<SplitInput>)
    requires splits != []
    ensures var front := splits[..|splits| - 1];
            AcceptedSplits(categories, caller, budget, splits) == splits
            <==> AcceptedSplits(categories, caller, budget, front) == front
                 && CategoryFits(categories, caller, budget, splits[|splits| - 1].category)
  {
    var front := splits[..|splits| - 1];
    var last := splits[|splits| - 1];
    var fits := CategoryFits(categories, caller, budget, last.category);
    var acc := AcceptedSplits(categories, caller, budget, splits);
    var accFront := AcceptedSplits(categories, caller, budget, front);
    assert acc == accFront + (if fits then [last] else []);
    assert splits == front + [last];
    if acc == splits {
      assert |accFront| <= |front|;
      assert fits;
      assert accFront == acc[..|front|] == front;
    }
  }

  /** A request the as-written handler accepts while storing only part of it:
      two valid splits, the second naming a category of another budget. */
  lemma {:induction false} SplitSkipExample()
    ensures var cats := [Row(1, 7, CategoryData(2, 3, "Groceries"), None),
                         Row(4, 7, CategoryData(5, 6, "Rent"), None)];
            var splits := [SplitInput(1, None, 0, 500), SplitInput(4, None, 0, 300)];
            && ValidateSplits(splits) == Ok(())
            && AcceptedSplits(cats, 7, 2, splits) == [splits[0]]
            && CheckSplitCategories(cats, 7, 2, splits) == Err(BadRequest)
  {
    var cats := [Row(1, 7, CategoryData(2, 3, "Groceries"), None),
                 Row(4, 7, CategoryData(5, 6, "Rent"), None)];
    var splits := [SplitInput(1, None, 0, 500), SplitInput(4, None, 0, 300)];
    assert FindLiveOwned(cats, 1, 7) == Some(cats[0]);
    assert FindLiveOwned(cats, 4, 7) == Some(cats[1]) by {
      assert FindLiveOwned(cats[1..], 4, 7) == Some(cats[1]);
    }
    assert splits[..1] == [splits[0]] && [splits[0]][..0] == [];
  }

  /** The rows the insert loop adds for the splits of transaction `txn`, with
      ids handed out from `first` on. */
  function SplitRows(txn: Id, splits: seq<SplitInput>, first: nat): (r: seq<SplitRow>)
    ensures |r| == |splits|
    ensures forall k :: 0 <= k < |splits| ==>
              r[k] == SplitRow(first + k, txn, splits[k].category, splits[k].memo, splits[k].inflow, splits[k].outflow, None)
  {
    if splits == [] then []
    else
      var k := |splits| - 1;
      SplitRows(txn, splits[..k], first)
        + [SplitRow(first + k, txn, splits[k].category, splits[k].memo, splits[k].inflow, splits[k].outflow, None)]
  }

  /** `update transaction_splits set deleted_at = now() where transaction_pillid = $1`. */
  function DeleteSplitsOf(splits: seq<SplitRow>, txn: Id, now: Time): (r: seq<SplitRow>)
    ensures |r| == |splits|
    ensures forall k :: 0 <= k < |splits| ==>
              r[k] == if splits[k].transaction == txn then splits[k].(deletedAt := Some(now)) else splits[k]
  {
    seq(|splits|, k requires 0 <= k < |splits| =>
      if splits[k].transaction == txn then splits[k].(deletedAt := Some(now)) else splits[k])
  }

  /** The stored rows of validated splits whose categories the owner owns. */
  lemma {:induction false} SplitRowsStored(st: State, txn: Id, caller: Id, inputs: seq<SplitInput>, first: nat,
                        transactions: seq<Row<TransactionData>>)
    requires OwnerOf(transactions, txn) == Some(caller)
    requires forall k :: 0 <= k < |inputs| ==> WellShaped(inputs[k]) && OwnedRow(st.categories, inputs[k].category, caller)
    ensures forall k :: 0 <= k < |inputs| ==> SplitStored(SplitRows(txn, inputs, first)[k], transactions, st.categories)
  {
    forall k | 0 <= k < |inputs|
      ensures SplitStored(SplitRows(txn, inputs, first)[k], transactions, st.categories)
    {
      var row := SplitRows(txn, inputs, first)[k];
      assert SplitInput(row.category, row.memo, row.inflow, row.outflow) == inputs[k];
    }
  }

  /** Splits stored side by side stay stored. */
  lemma {:induction false} StoredConcat(a: seq<SplitRow>, b: seq<SplitRow>, ts: seq<Row<TransactionData>>, cs: seq<Row<CategoryData>>)
    requires forall i :: 0 <= i < |a| ==> SplitStored(a[i], ts, cs)
    requires forall i :: 0 <= i < |b| ==> SplitStored(b[i], ts, cs)
    ensures forall i :: 0 <= i < |a + b| ==> SplitStored((a + b)[i], ts, cs)
  {
    forall i | 0 <= i < |a + b| ensures SplitStored((a + b)[i], ts, cs) {
      if i >= |a| {
        assert (a + b)[i] == b[i - |a|];
      } else {
        assert (a + b)[i] == a[i];
      }
    }
  }

  /** `create_transaction` (with its splits stored all-or-nothing): the
      transaction row, then one split row per split, each with a new id. */
  function AddTransaction(st: State, caller: Id, data: TransactionData, inputs: seq<SplitInput>): (r: State)
    ensures r.transactions == st.transactions + [Row(st.nextId, caller, data, None)]
    ensures r.splits == st.splits + SplitRows(st.nextId, inputs, st.nextId + 1)
    ensures r.nextId == st.nextId + 1 + |inputs|
  {
    st.(transactions := st.transactions + [Row(st.nextId, caller, data, None)],
        splits := st.splits + SplitRows(st.nextId, inputs, st.nextId + 1),
        nextId := st.nextId + 1 + |inputs|)
  }

  /** Creating a transaction keeps the store valid when budget and account
      are the caller's and every split is validated and of a category of the
      caller. */
  lemma {:induction false} AddTransactionValid(st: State, caller: Id, data: TransactionData, inputs: seq<SplitInput>)
    requires Valid(st) && OwnedRow(st.budgets, data.budget, caller) && OwnedRow(st.accounts, data.account, caller)
    requires forall k :: 0 <= k < |inputs| ==> WellShaped(inputs[k]) && OwnedRow(st.categories, inputs[k].category, caller)
    ensures Valid(AddTransaction(st, caller, data, inputs))
  {
    var r := AddTransaction(st, caller, data, inputs);
    AddedTransactionIds(st, caller, data, inputs);
    AddedTransactionRefs(st, caller, data, inputs);
    AddedSplitsStored(st, caller, data, inputs);
    assert SplitsValid(r);
  }

  lemma {:induction false} AddedTransactionIds(st: State, caller: Id, data: TransactionData, inputs: seq<SplitInput>)
    requires IdsValid(st)
    ensures IdsValid(AddTransaction(st, caller, data, inputs))
  {
    var r := AddTransaction(st, caller, data, inputs);
    IdsValidBump(st, 1 + |inputs|);
    IdsAscendingAppend(st.transactions, st.nextId, Row(st.nextId, caller, data, None));
    IdsAscendingBump(r.transactions, st.nextId + 1, r.nextId);
  }

  lemma {:induction false} AddedTransactionRefs(st: State, caller: Id, data: TransactionData, inputs: seq<SplitInput>)
    requires RefsValid(st) && OwnedRow(st.budgets, data.budget, caller) && OwnedRow(st.accounts, data.account, caller)
    ensures RefsValid(AddTransaction(st, caller, data, inputs))
  {
    var x := Row(st.nextId, caller, data, None);
    RefsOwnedAppendChild(st.transactions, st.budgets, TransactionBudget, x);
    RefsOwnedAppendChild(st.transactions, st.accounts, TransactionAccount, x);
  }

  lemma {:induction false} AddedSplitsStored(st: State, caller: Id, data: TransactionData, inputs: seq<SplitInput>)
    requires SplitsValid(st) && IdsAscending(st.transactions, st.nextId)
    requires forall k :: 0 <= k < |inputs| ==> WellShaped(inputs[k]) && OwnedRow(st.categories, inputs[k].category, caller)
    ensures var r := AddTransaction(st, caller, data, inputs);
            forall i :: 0 <= i < |r.splits| ==> SplitStored(r.splits[i], r.transactions, r.categories)
  {
    var r := AddTransaction(st, caller, data, inputs);
    var ts := r.transactions;
    SplitsKept(st.splits, st.transactions, st.categories, ts, st.categories);
    assert ts[|st.transactions|] == Row(st.nextId, caller, data, None);
    IdsAscendingAppend(st.transactions, st.nextId, Row(st.nextId, caller, data, None));
    OwnerOfOwned(ts, st.nextId + 1, st.nextId, caller);
    SplitRowsStored(st, st.nextId, caller, inputs, st.nextId + 1, ts);
    StoredConcat(st.splits, SplitRows(st.nextId, inputs, st.nextId + 1), ts, st.categories);
  }

  /** `update_transaction` (with its splits replaced all-or-nothing): the
      row's payload is replaced, every split of it soft-deleted, and one new
      split row added per split. */
  function UpdateTransaction(st: State, id: Id, caller: Id, data: TransactionData, inputs: seq<SplitInput>, now: Time): (r: State)
    ensures r.transactions == Replace(st.transactions, id, caller, data)
    ensures r.splits == DeleteSplitsOf(st.splits, id, now) + SplitRows(id, inputs, st.nextId)
    ensures r.nextId == st.nextId + |inputs|
  {
    st.(transactions := Replace(st.transactions, id, caller, data),
        splits := DeleteSplitsOf(st.splits, id, now) + SplitRows(id, inputs, st.nextId),
        nextId := st.nextId + |inputs|)
  }

  lemma {:induction false} UpdateTransactionValid(st: State, id: Id, caller: Id, data: TransactionData, inputs: seq<SplitInput>, now: Time)
    requires Valid(st) && OwnedRow(st.transactions, id, caller)
    requires OwnedRow(st.budgets, data.budget, caller) && OwnedRow(st.accounts, data.account, caller)
    requires forall k :: 0 <= k < |inputs| ==> WellShaped(inputs[k]) && OwnedRow(st.categories, inputs[k].category, caller)
    ensures Valid(UpdateTransaction(st, id, caller, data, inputs, now))
  {
    var r := UpdateTransaction(st, id, caller, data, inputs, now);
    UpdatedTransactionIds(st, id, caller, data, inputs, now);
    UpdatedTransactionRefs(st, id, caller, data, inputs, now);
    ReplacedSplitsStored(st, id, caller, data, inputs, now);
    assert SplitsValid(r);
  }

  lemma {:induction false} UpdatedTransactionIds(st: State, id: Id, caller: Id, data: TransactionData, inputs: seq<SplitInput>, now: Time)
    requires IdsValid(st)
    ensures IdsValid(UpdateTransaction(st, id, caller, data, inputs, now))
  {
    var r := UpdateTransaction(st, id, caller, data, inputs, now);
    IdsValidBump(st, |inputs|);
    SameKeysAfterUpdates(st.transactions, id, caller, now, data);
    SameKeysKeepAscending(r.transactions, st.transactions, r.nextId);
  }

  lemma {:induction false} UpdatedTransactionRefs(st: State, id: Id, caller: Id, data: TransactionData, inputs: seq<SplitInput>, now: Time)
    requires RefsValid(st) && OwnedRow(st.budgets, data.budget, caller) && OwnedRow(st.accounts, data.account, caller)
    ensures RefsValid(UpdateTransaction(st, id, caller, data, inputs, now))
  {
    RefsOwnedReplace(st.transactions, st.budgets, TransactionBudget, id, caller, data);
    RefsOwnedReplace(st.transactions, st.accounts, TransactionAccount, id, caller, data);
  }

  lemma {:induction false} ReplacedSplitsStored(st: State, id: Id, caller: Id, data: TransactionData, inputs: seq<SplitInput>, now: Time)
    requires SplitsValid(st) && IdsAscending(st.transactions, st.nextId) && OwnedRow(st.transactions, id, caller)
    requires forall k :: 0 <= k < |inputs| ==> WellShaped(inputs[k]) && OwnedRow(st.categories, inputs[k].category, caller)
    ensures var r := UpdateTransaction(st, id, caller, data, inputs, now);
            forall i :: 0 <= i < |r.splits| ==> SplitStored(r.splits[i], r.transactions, r.categories)
  {
    var ts := Replace(st.transactions, id, caller, data);
    var kept := DeleteSplitsOf(st.splits, id, now);
    SameKeysAfterUpdates(st.transactions, id, caller, now, data);
    SplitsKept(st.splits, st.transactions, st.categories, ts, st.categories);
    forall i | 0 <= i < |kept| ensures SplitStored(kept[i], ts, st.categories) {
      assert SplitStored(st.splits[i], ts, st.categories);
    }
    OwnedRowKept(ts, st.transactions, id, caller);
    SameKeysKeepAscending(ts, st.transactions, st.nextId);
    OwnerOfOwned(ts, st.nextId, id, caller);
    SplitRowsStored(st, id, caller, inputs, st.nextId, ts);
    StoredConcat(kept, SplitRows(id, inputs, st.nextId), ts, st.categories);
  }

  /** `delete_transaction`: its splits stay as they are. */
  lemma {:induction false} DeleteTransactionValid(st: State, id: Id, caller: Id, now: Time)
    requires Valid(st)
    ensures Valid(st.(transactions := SoftDelete(st.transactions, id, caller, now)))
  {
    var ts := SoftDelete(st.transactions, id, caller, now);
    SameKeysKeepAscending(ts, st.transactions, st.nextId);
    RefsOwnedSoftDelete(st.transactions, st.budgets, TransactionBudget, id, caller, now);
    RefsOwnedSoftDelete(st.transactions, st.accounts, TransactionAccount, id, caller, now);
    SplitsKept(st.splits, st.transactions, st.categories, ts, st.categories);
  }

  // ------------------------------------------------------------ parent checks

  /** The joins of `create_category` / `update_category`: a live budget of
      the caller, and a live supercategory of the caller in that budget. */
  predicate CategoryParentsFit(st: State, caller: Id, budget: Id, supercategory: Id)
  {
    && FindLiveOwned(st.budgets, budget, caller).Some?
    && var s := FindLiveOwned(st.supercategories, supercategory, caller);
       s.Some? && s.value.data.budget == budget
  }

  /** The joins of `create_transaction` / `update_transaction`: a live budget
      of the caller, and a live account of the caller in that budget. */
  predicate TransactionParentsFit(st: State, caller: Id, budget: Id, account: Id)
  {
    && FindLiveOwned(st.budgets, budget, caller).Some?
    && var a := FindLiveOwned(st.accounts, account, caller);
       a.Some? && a.value.data.budget == budget
  }

  /** The joins of `create_category_assignment`: a live budget of the caller,
      and a live category of the caller in that budget. */
  predicate AssignmentParentsFit(st: State, caller: Id, budget: Id, category: Id)
  {
    && FindLiveOwned(st.budgets, budget, caller).Some?
    && CategoryFits(st.categories, caller, budget, category)
  }

  /** Splits that pass the category check name categories of the caller. */
  lemma {:induction false} CheckedSplitsOwned(categories: seq<Row<CategoryData>>, caller: Id, budget: Id, inputs: seq<SplitInput>)
    requires CheckSplitCategories(categories, caller, budget, inputs).Ok?
    ensures forall k :: 0 <= k < |inputs| ==> OwnedRow(categories, inputs[k].category, caller)
  {
    forall k | 0 <= k < |inputs| ensures OwnedRow(categories, inputs[k].category, caller) {
      assert CategoryFits(categories, caller, budget, inputs[k].category);
    }
  }
}
