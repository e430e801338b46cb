// The HTTP handlers of the backend as methods of one in-memory database.
// Each handler authenticates (where the route does), checks what its SQL
// joins require, and changes the tables as its statements do. Every handler
// keeps the store invariant `Valid`.

module Api {
  import opened Common
  import opened Tables
  import opened Auth
  import opened Validation
  import opened Calendar
  import opened Store
  import opened Ordering
  import opened Projection

  const SignInSubject := "Your EnvelopeZero sign-in link"
  const SignInNotice := "If this email is registered, a magic link will be sent."
  const DefaultCurrency := "USD"

  /** `trim_end_matches('/')`. */
  function TrimTrailingSlashes(s: string): (r: string)
    ensures |r| <= |s| && s[..|r|] == r
    ensures forall i :: |r| <= i < |s| ==> s[i] == '/'
    ensures r == [] || r[|r| - 1] != '/'
  {
    if s != [] && s[|s| - 1] == '/' then TrimTrailingSlashes(s[..|s| - 1]) else s
  }

  /** The mail body of a sign-in link: the origin without trailing slashes,
      then `/?token=` and the token. */
  function SignInBody(origin: string, token: string): (body: string)
    ensures |body| == |"Click to sign in: "| + |TrimTrailingSlashes(origin)| + |"/?token="| + |token|
    ensures body[|body| - |token|..] == token
    ensures var link := body[|"Click to sign in: "|..|body| - |token| - |"/?token="|];
            link == TrimTrailingSlashes(origin) && (link == [] || link[|link| - 1] != '/')
  {
    var link := TrimTrailingSlashes(origin);
    var body := "Click to sign in: " + link + "/?token=" + token;
    assert body[|"Click to sign in: "|..|body| - |token| - |"/?token="|] == link;
    body
  }

  /** The mail carries the same link however many slashes the configured
      origin ends with. */
  lemma SignInBodyIgnoresTrailingSlashes(origin: string, token: string)
    ensures SignInBody(origin + "/", token) == SignInBody(origin, token)
  {
    assert (origin + "/")[..|origin|] == origin;
  }

  datatype MagicLinkResponse = MagicLinkResponse(message: string, debugToken: Option<string>)
  datatype SessionGrant = SessionGrant(token: string, user: Id)
  datatype UserView = UserView(id: Id, email: string)
  datatype AssignmentView = AssignmentView(id: Id, budget: Id, category: Id, month: string, amount: int)

  function AssignmentMonth(a: AssignmentData): Date { a.month }

  /** One assignment row as listed, with its month as `YYYY-MM` text. */
  function ViewOf(row: Row<AssignmentData>): (v: AssignmentView)
    requires ListableMonth(row.data.month)
    ensures v.id == row.id && v.budget == row.data.budget && v.category == row.data.category
    ensures v.amount == row.data.amount && ParseProjectionMonth(v.month) == Ok(ListedMonth(row.data.month))
    ensures 1 <= row.data.month.year ==> ParseProjectionMonth(v.month) == Ok(row.data.month)
  {
    FormatMonthRoundTrip(row.data.month);
    AssignmentView(row.id, row.data.budget, row.data.category, FormatMonth(row.data.month), row.data.amount)
  }

  function AssignmentViews(rows: seq<Row<AssignmentData>>): (r: seq<AssignmentView>)
    requires forall i :: 0 <= i < |rows| ==> ListableMonth(rows[i].data.month)
    ensures |r| == |rows| && forall i :: 0 <= i < |rows| ==> r[i] == ViewOf(rows[i])
  {
    seq(|rows|, i requires 0 <= i < |rows| => ViewOf(rows[i]))
  }

  /** The service: its feature flags and public origin, and the tables it
      reads and writes. Every handler keeps `Valid`. */
  class Database {
    const multiBudget: bool
    const assignmentsEnabled: bool
    const appOrigin: string
    var tables: State

    predicate Valid()
      reads this
    {
      Store.Valid(tables) && (!multiBudget ==> OneBudgetEach(tables.budgets))
    }

    /** `user_from_headers` against the current sessions. */
    function Caller(header: Option<string>, now: Time): Result<Id>
      reads this
    {
      Authenticate(tables.sessions, header, now)
    }

    constructor (multiBudget: bool, assignmentsEnabled: bool, appOrigin: string)
      ensures Valid() && tables == EmptyState
      ensures this.multiBudget == multiBudget && this.assignmentsEnabled == assignmentsEnabled
      ensures this.appOrigin == appOrigin
    {
      this.multiBudget := multiBudget;
      this.assignmentsEnabled := assignmentsEnabled;
      this.appOrigin := appOrigin;
      tables := EmptyState;
      EmptyStateValid();
    }

    // ------------------------------------------------------------ sign-in

    /** `request_magic_link`: a checked email gets a fifteen-minute token
        (stored only as its digest) and a queued sign-in mail. `token` is the
        fresh random token. */
    method RequestMagicLink(rawEmail: string, token: string, now: Time) returns (r: Result<MagicLinkResponse>)
      requires Valid()
      modifies this
      ensures Valid()
      ensures CheckEmail(rawEmail).Err? ==> r == Err(BadRequest) && tables == old(tables)
      ensures CheckEmail(rawEmail).Ok? ==>
                var email := CheckEmail(rawEmail).value;
                && r == Ok(MagicLinkResponse(SignInNotice, Some(token)))
                && tables == old(tables).(
                     magicLinkTokens := old(tables.magicLinkTokens)
                       + [MagicLinkTokenRow(old(tables.nextId), email, Sha256(token), now + MagicLinkLifetime, None)],
                     outbox := old(tables.outbox) + [OutboxMail(email, SignInSubject, SignInBody(appOrigin, token))],
                     nextId := old(tables.nextId) + 1)
    {
      var checked := CheckEmail(rawEmail);
      if checked.Err? {
        return Err(BadRequest);
      }
      var email := checked.value;
      var st := tables;
      var row := MagicLinkTokenRow(st.nextId, email, Sha256(token), now + MagicLinkLifetime, None);
      var mail := OutboxMail(email, SignInSubject, SignInBody(appOrigin, token));
      TokenRequestedValid(st, row, mail);
      tables := st.(magicLinkTokens := st.magicLinkTokens + [row], outbox := st.outbox + [mail], nextId := st.nextId + 1);
      r := Ok(MagicLinkResponse(SignInNotice, Some(token)));
    }

    /** `verify_magic_link`: the newest usable token with this digest is
        consumed; a new email first becomes a user with an email row, an
        auth method and a default budget; then a thirty-day session is
        opened. `sessionToken` is the fresh random session secret. */
    method VerifyMagicLink(token: string, sessionToken: string, now: Time) returns (r: Result<SessionGrant>)
      requires Valid()
      modifies this
      ensures Valid()
      ensures FindUsableToken(old(tables.magicLinkTokens), Sha256(token), now).None? ==>
                r == Err(Unauthorized) && tables == old(tables)
      ensures FindUsableToken(old(tables.magicLinkTokens), Sha256(token), now).Some? ==>
                var row := old(tables.magicLinkTokens)[FindUsableToken(old(tables.magicLinkTokens), Sha256(token), now).value];
                && r == Ok(SessionGrant(sessionToken, SignInUser(old(tables), row.email)))
                && tables == SignIn(old(tables), row, Sha256(sessionToken), now)
    {
      var found := FindUsableToken(tables.magicLinkTokens, Sha256(token), now);
      if found.None? {
        return Err(Unauthorized);
      }
      var row := tables.magicLinkTokens[found.value];
      var uid := SignInUser(tables, row.email);
      SignInKeepsValid(tables, row, Sha256(sessionToken), now, !multiBudget);
      tables := SignIn(tables, row, Sha256(sessionToken), now);
      r := Ok(SessionGrant(sessionToken, uid));
    }

    /** `me`: the caller and the email verified last; a caller without any
        email row is a server error. */
    method Me(header: Option<string>, now: Time) returns (r: Result<UserView>)
      ensures Caller(header, now).Err? ==> r == Err(Unauthorized)
      ensures Caller(header, now).Ok? ==>
                var idx := LatestEmailIndex(tables.userEmails, Caller(header, now).value);
                r == if idx.None? then Err(InternalServerError)
                     else Ok(UserView(Caller(header, now).value, tables.userEmails[idx.value].email))
    {
      var caller := Caller(header, now);
      if caller.Err? {
        return Err(Unauthorized);
      }
      var idx := LatestEmailIndex(tables.userEmails, caller.value);
      if idx.None? {
        return Err(InternalServerError);
      }
      r := Ok(UserView(caller.value, tables.userEmails[idx.value].email));
    }

    // ------------------------------------------------------------ budgets

    /** `list_budgets`: every budget row of the caller, deleted or not. */
    method ListBudgets(header: Option<string>, now: Time) returns (r: Result<seq<Row<BudgetData>>>)
      ensures Caller(header, now).Err? ==> r == Err(Unauthorized)
      ensures Caller(header, now).Ok? ==> r == Ok(ListOwned(tables.budgets, Caller(header, now).value))
    {
      var caller := Caller(header, now);
      if caller.Err? {
        return Err(Unauthorized);
      }
      r := Ok(ListOwned(tables.budgets, caller.value));
    }

    /** `create_budget`: with multi-budget mode off a caller who has any
        budget row is refused with CONFLICT; the new budget is never the
        default and its currency defaults to USD. */
    method CreateBudget(header: Option<string>, now: Time, name: string, currency: Option<string>)
      returns (r: Result<Row<BudgetData>>)
      requires Valid()
      modifies this
      ensures Valid()
      ensures old(Caller(header, now)).Err? ==> r == Err(Unauthorized) && tables == old(tables)
      ensures old(Caller(header, now)).Ok? ==>
                var caller := old(Caller(header, now)).value;
                if !multiBudget && |ListOwned(old(tables.budgets), caller)| > 0 then
                  r == Err(Conflict) && tables == old(tables)
                else
                  var row := Row(old(tables.nextId), caller,
                                 BudgetData(name, if currency.Some? then currency.value else DefaultCurrency, false), None);
                  r == Ok(row) && tables == old(tables).(budgets := old(tables.budgets) + [row], nextId := old(tables.nextId) + 1)
    {
      var caller := Caller(header, now);
      if caller.Err? {
        return Err(Unauthorized);
      }
      var st := tables;
      if !multiBudget && |ListOwned(st.budgets, caller.value)| > 0 {
        return Err(Conflict);
      }
      var code := if currency.Some? then currency.value else DefaultCurrency;
      var row := Row(st.nextId, caller.value, BudgetData(name, code, false), None);
      AuthenticatedCallerExists(st, header, now);
      AddBudgetValid(st, caller.value, name, code);
      if !multiBudget {
        AddBudgetOneBudget(st.budgets, row);
      }
      tables := st.(budgets := st.budgets + [row], nextId := st.nextId + 1);
      r := Ok(row);
    }

    // ------------------------------------------------------------ accounts

    /** `list_accounts`: the caller's live accounts in creation order. */
    method ListAccounts(header: Option<string>, now: Time) returns (r: Result<seq<Row<AccountData>>>)
      ensures Caller(header, now).Err? ==> r == Err(Unauthorized)
      ensures Caller(header, now).Ok? ==> r == Ok(ListLive(tables.accounts, Caller(header, now).value))
    {
      var caller := Caller(header, now);
      if caller.Err? {
        return Err(Unauthorized);
      }
      r := Ok(ListLive(tables.accounts, caller.value));
    }

    /** `create_account`: only into a live budget of the caller. */
    method CreateAccount(header: Option<string>, now: Time, data: AccountData) returns (r: Result<Row<AccountData>>)
      requires Valid()
      modifies this
      ensures Valid()
      ensures old(Caller(header, now)).Err? ==> r == Err(Unauthorized) && tables == old(tables)
      ensures old(Caller(header, now)).Ok? ==>
                var caller := old(Caller(header, now)).value;
                if FindLiveOwned(old(tables.budgets), data.budget, caller).None? then
                  r == Err(BadRequest) && tables == old(tables)
                else
                  var row := Row(old(tables.nextId), caller, data, None);
                  r == Ok(row) && tables == old(tables).(accounts := old(tables.accounts) + [row], nextId := old(tables.nextId) + 1)
    {
      var caller := Caller(header, now);
      if caller.Err? {
        return Err(Unauthorized);
      }
      var st := tables;
      if FindLiveOwned(st.budgets, data.budget, caller.value).None? {
        return Err(BadRequest);
      }
      AddAccountValid(st, caller.value, data);
      var row := Row(st.nextId, caller.value, data, None);
      tables := st.(accounts := st.accounts + [row], nextId := st.nextId + 1);
      r := Ok(row);
    }

    /** `update_account`: the caller's account row with that id (deleted or
        not) is moved to a live budget of the caller and renamed. */
    method UpdateAccount(header: Option<string>, now: Time, id: Id, data: AccountData) returns (r: Result<Row<AccountData>>)
      requires Valid()
      modifies this
      ensures Valid()
      ensures old(Caller(header, now)).Err? ==> r == Err(Unauthorized) && tables == old(tables)
      ensures old(Caller(header, now)).Ok? ==>
                var caller := old(Caller(header, now)).value;
                var idx := IndexOwned(old(tables.accounts), id, caller);
                if FindLiveOwned(old(tables.budgets), data.budget, caller).None? || idx.None? then
                  r == Err(BadRequest) && tables == old(tables)
                else
                  r == Ok(old(tables.accounts)[idx.value].(data := data))
                  && tables == old(tables).(accounts := Replace(old(tables.accounts), id, caller, data))
    {
      var caller := Caller(header, now);
      if caller.Err? {
        return Err(Unauthorized);
      }
      var st := tables;
      var idx := IndexOwned(st.accounts, id, caller.value);
      if FindLiveOwned(st.budgets, data.budget, caller.value).None? || idx.None? {
        return Err(BadRequest);
      }
      UpdateAccountValid(st, id, caller.value, data);
      tables := st.(accounts := Replace(st.accounts, id, caller.value, data));
      r := Ok(st.accounts[idx.value].(data := data));
    }

    /** `delete_account`: stamps the caller's row with that id, if any, and
        answers NO_CONTENT either way. */
    method DeleteAccount(header: Option<string>, now: Time, id: Id) returns (r: Result<()>)
      requires Valid()
      modifies this
      ensures Valid()
      ensures old(Caller(header, now)).Err? ==> r == Err(Unauthorized) && tables == old(tables)
      ensures old(Caller(header, now)).Ok? ==>
                r == Ok(()) && tables == old(tables).(accounts := SoftDelete(old(tables.accounts), id, old(Caller(header, now)).value, now))
    {
      var caller := Caller(header, now);
      if caller.Err? {
        return Err(Unauthorized);
      }
      DeleteAccountValid(tables, id, caller.value, now);
      tables := tables.(accounts := SoftDelete(tables.accounts, id, caller.value, now));
      r := Ok(());
    }

    // ------------------------------------------------------------ supercategories

    /** `list_supercategories`: the caller's live supercategories. */
    method ListSupercategories(header: Option<string>, now: Time) returns (r: Result<seq<Row<SupercategoryData>>>)
      ensures Caller(header, now).Err? ==> r == Err(Unauthorized)
      ensures Caller(header, now).Ok? ==> r == Ok(ListLive(tables.supercategories, Caller(header, now).value))
    {
      var caller := Caller(header, now);
      if caller.Err? {
        return Err(Unauthorized);
      }
      r := Ok(ListLive(tables.supercategories, caller.value));
    }

    /** `create_supercategory`: only into a live budget of the caller. */
    method CreateSupercategory(header: Option<string>, now: Time, data: SupercategoryData) returns (r: Result<Row<SupercategoryData>>)
      requires Valid()
      modifies this
      ensures Valid()
      ensures old(Caller(header, now)).Err? ==> r == Err(Unauthorized) && tables == old(tables)
      ensures old(Caller(header, now)).Ok? ==>
                var caller := old(Caller(header, now)).value;
                if FindLiveOwned(old(tables.budgets), data.budget, caller).None? then
                  r == Err(BadRequest) && tables == old(tables)
                else
                  var row := Row(old(tables.nextId), caller, data, None);
                  r == Ok(row)
                  && tables == old(tables).(supercategories := old(tables.supercategories) + [row], nextId := old(tables.nextId) + 1)
    {
      var caller := Caller(header, now);
      if caller.Err? {
        return Err(Unauthorized);
      }
      var st := tables;
      if FindLiveOwned(st.budgets, data.budget, caller.value).None? {
        return Err(BadRequest);
      }
      AddSupercategoryValid(st, caller.value, data);
      var row := Row(st.nextId, caller.value, data, None);
      tables := st.(supercategories := st.supercategories + [row], nextId := st.nextId + 1);
      r := Ok(row);
    }

    /** `update_supercategory`: as `update_account`. */
    method UpdateSupercategory(header: Option<string>, now: Time, id: Id, data: SupercategoryData)
      returns (r: Result<Row<SupercategoryData>>)
      requires Valid()
      modifies this
      ensures Valid()
      ensures old(Caller(header, now)).Err? ==> r == Err(Unauthorized) && tables == old(tables)
      ensures old(Caller(header, now)).Ok? ==>
                var caller := old(Caller(header, now)).value;
                var idx := IndexOwned(old(tables.supercategories), id, caller);
                if FindLiveOwned(old(tables.budgets), data.budget, caller).None? || idx.None? then
                  r == Err(BadRequest) && tables == old(tables)
                else
                  r == Ok(old(tables.supercategories)[idx.value].(data := data))
                  && tables == old(tables).(supercategories := Replace(old(tables.supercategories), id, caller, data))
    {
      var caller := Caller(header, now);
      if caller.Err? {
        return Err(Unauthorized);
      }
      var st := tables;
      var idx := IndexOwned(st.supercategories, id, caller.value);
      if FindLiveOwned(st.budgets, data.budget, caller.value).None? || idx.None? {
        return Err(BadRequest);
      }
      UpdateSupercategoryValid(st, id, caller.value, data);
      tables := st.(supercategories := Replace(st.supercategories, id, caller.value, data));
      r := Ok(st.supercategories[idx.value].(data := data));
    }

    /** `delete_supercategory`: as `delete_account`; its categories stay. */
    method DeleteSupercategory(header: Option<string>, now: Time, id: Id) returns (r: Result<()>)
      requires Valid()
      modifies this
      ensures Valid()
      ensures old(Caller(header, now)).Err? ==> r == Err(Unauthorized) && tables == old(tables)
      ensures old(Caller(header, now)).Ok? ==>
                r == Ok(())
                && tables == old(tables).(supercategories := SoftDelete(old(tables.supercategories), id, old(Caller(header, now)).value, now))
    {
      var caller := Caller(header, now);
      if caller.Err? {
        return Err(Unauthorized);
      }
      DeleteSupercategoryValid(tables, id, caller.value, now);
      tables := tables.(supercategories := SoftDelete(tables.supercategories, id, caller.value, now));
      r := Ok(());
    }

    // ------------------------------------------------------------ categories

    /** `list_categories`: the caller's live categories. */
    method ListCategories(header: Option<string>, now: Time) returns (r: Result<seq<Row<CategoryData>>>)
      ensures Caller(header, now).Err? ==> r == Err(Unauthorized)
      ensures Caller(header, now).Ok? ==> r == Ok(ListLive(tables.categories, Caller(header, now).value))
    {
      var caller := Caller(header, now);
      if caller.Err? {
        return Err(Unauthorized);
      }
      r := Ok(ListLive(tables.categories, caller.value));
    }

    /** `create_category`: under a live supercategory of the caller that is
        in the named live budget of the caller. */
    method CreateCategory(header: Option<string>, now: Time, data: CategoryData) returns (r: Result<Row<CategoryData>>)
      requires Valid()
      modifies this
      ensures Valid()
      ensures old(Caller(header, now)).Err? ==> r == Err(Unauthorized) && tables == old(tables)
      ensures old(Caller(header, now)).Ok? ==>
                var caller := old(Caller(header, now)).value;
                if !CategoryParentsFit(old(tables), caller, data.budget, data.supercategory) then
                  r == Err(BadRequest) && tables == old(tables)
                else
                  var row := Row(old(tables.nextId), caller, data, None);
                  r == Ok(row) && tables == old(tables).(categories := old(tables.categories) + [row], nextId := old(tables.nextId) + 1)
    {
      var caller := Caller(header, now);
      if caller.Err? {
        return Err(Unauthorized);
      }
      var st := tables;
      if !CategoryParentsFit(st, caller.value, data.budget, data.supercategory) {
        return Err(BadRequest);
      }
      AddCategoryValid(st, caller.value, data);
      var row := Row(st.nextId, caller.value, data, None);
      tables := st.(categories := st.categories + [row], nextId := st.nextId + 1);
      r := Ok(row);
    }

    /** `update_category`: the caller's category row with that id is moved
        under a fitting supercategory and budget and renamed. */
    method UpdateCategory(header: Option<string>, now: Time, id: Id, data: CategoryData) returns (r: Result<Row<CategoryData>>)
      requires Valid()
      modifies this
      ensures Valid()
      ensures old(Caller(header, now)).Err? ==> r == Err(Unauthorized) && tables == old(tables)
      ensures old(Caller(header, now)).Ok? ==>
                var caller := old(Caller(header, now)).value;
                var idx := IndexOwned(old(tables.categories), id, caller);
                if !CategoryParentsFit(old(tables), caller, data.budget, data.supercategory) || idx.None? then
                  r == Err(BadRequest) && tables == old(tables)
                else
                  r == Ok(old(tables.categories)[idx.value].(data := data))
                  && tables == old(tables).(categories := Replace(old(tables.categories), id, caller, data))
    {
      var caller := Caller(header, now);
      if caller.Err? {
        return Err(Unauthorized);
      }
      var st := tables;
      var idx := IndexOwned(st.categories, id, caller.value);
      if !CategoryParentsFit(st, caller.value, data.budget, data.supercategory) || idx.None? {
        return Err(BadRequest);
      }
      UpdateCategoryValid(st, id, caller.value, data);
      tables := st.(categories := Replace(st.categories, id, caller.value, data));
      r := Ok(st.categories[idx.value].(data := data));
    }

    /** `delete_category`: as `delete_account`; its splits and assignments stay. */
    method DeleteCategory(header: Option<string>, now: Time, id: Id) returns (r: Result<()>)
      requires Valid()
      modifies this
      ensures Valid()
      ensures old(Caller(header, now)).Err? ==> r == Err(Unauthorized) && tables == old(tables)
      ensures old(Caller(header, now)).Ok? ==>
                r == Ok(())
                && tables == old(tables).(categories := SoftDelete(old(tables.categories), id, old(Caller(header, now)).value, now))
    {
      var caller := Caller(header, now);
      if caller.Err? {
        return Err(Unauthorized);
      }
      DeleteCategoryValid(tables, id, caller.value, now);
      tables := tables.(categories := SoftDelete(tables.categories, id, caller.value, now));
      r := Ok(());
    }

    // ------------------------------------------------------------ transactions

    /** `list_transactions`: the caller's live transactions, newest first,
        each with its live splits. */
    method ListTransactions(header: Option<string>, now: Time) returns (r: Result<seq<TransactionView>>)
      ensures Caller(header, now).Err? ==> r == Err(Unauthorized)
      ensures Caller(header, now).Ok? ==>
                var sorted := SortNewestFirst(ListLive(tables.transactions, Caller(header, now).value), TransactionDate);
                && r.Ok? && |r.value| == |sorted|
                && forall k :: 0 <= k < |sorted| ==> r.value[k] == TransactionView(sorted[k], LiveSplitsOf(tables.splits, sorted[k].id))
    {
      var caller := Caller(header, now);
      if caller.Err? {
        return Err(Unauthorized);
      }
      var views := Projection.ListTransactions(tables.transactions, tables.splits, caller.value);
      r := Ok(views);
    }

    /** The statements of `create_transaction` once its checks have passed:
        the transaction row, then one split row per split, in order. */
    method InsertTransaction(caller: Id, data: TransactionData, inputs: seq<SplitInput>)
      modifies this
      ensures tables == AddTransaction(old(tables), caller, data, inputs)
    {
      var st := tables;
      var txn := st.nextId;
      tables := st.(transactions := st.transactions + [Row(txn, caller, data, None)], nextId := txn + 1);
      var i := 0;
      while i < |inputs|
        invariant 0 <= i <= |inputs|
        invariant tables == AddTransaction(st, caller, data, inputs[..i])
      {
        var split := inputs[i];
        assert inputs[..i + 1][..i] == inputs[..i];
        tables := tables.(splits := tables.splits + [SplitRow(tables.nextId, txn, split.category, split.memo, split.inflow, split.outflow, None)],
                          nextId := tables.nextId + 1);
        i := i + 1;
      }
      assert inputs[..i] == inputs;
    }

    /** The statements of `update_transaction` once its checks have passed:
        the payload replaced, the old splits stamped, the new ones inserted. */
    method ReplaceTransaction(id: Id, caller: Id, data: TransactionData, inputs: seq<SplitInput>, now: Time)
      modifies this
      ensures tables == Store.UpdateTransaction(old(tables), id, caller, data, inputs, now)
    {
      var st := tables;
      tables := st.(transactions := Replace(st.transactions, id, caller, data), splits := DeleteSplitsOf(st.splits, id, now));
      var i := 0;
      while i < |inputs|
        invariant 0 <= i <= |inputs|
        invariant tables == Store.UpdateTransaction(st, id, caller, data, inputs[..i], now)
      {
        var split := inputs[i];
        assert inputs[..i + 1][..i] == inputs[..i];
        tables := tables.(splits := tables.splits + [SplitRow(tables.nextId, id, split.category, split.memo, split.inflow, split.outflow, None)],
                          nextId := tables.nextId + 1);
        i := i + 1;
      }
      assert inputs[..i] == inputs;
    }

    /** `create_transaction`: the splits are validated before anything else;
        the transaction goes into a live account of the caller in the named
        live budget, and every split must name a live category of the caller
        in that budget. The answer carries no splits. */
    method CreateTransaction(header: Option<string>, now: Time, data: TransactionData, inputs: seq<SplitInput>)
      returns (r: Result<TransactionView>)
      requires Valid()
      modifies this
      ensures Valid()
      ensures ValidateSplits(inputs).Err? ==> r == Err(BadRequest) && tables == old(tables)
      ensures ValidateSplits(inputs).Ok? && old(Caller(header, now)).Err? ==> r == Err(Unauthorized) && tables == old(tables)
      ensures ValidateSplits(inputs).Ok? && old(Caller(header, now)).Ok? ==>
                var caller := old(Caller(header, now)).value;
                if !TransactionParentsFit(old(tables), caller, data.budget, data.account)
                   || CheckSplitCategories(old(tables.categories), caller, data.budget, inputs).Err? then
                  r == Err(BadRequest) && tables == old(tables)
                else
                  r == Ok(TransactionView(Row(old(tables.nextId), caller, data, None), []))
                  && tables == AddTransaction(old(tables), caller, data, inputs)
    {
      var checked := ValidateSplits(inputs);
      if checked.Err? {
        return Err(BadRequest);
      }
      var caller := Caller(header, now);
      if caller.Err? {
        return Err(Unauthorized);
      }
      var st := tables;
      if !TransactionParentsFit(st, caller.value, data.budget, data.account)
         || CheckSplitCategories(st.categories, caller.value, data.budget, inputs).Err? {
        return Err(BadRequest);
      }
      InsertTransaction(caller.value, data, inputs);
      CheckedSplitsOwned(st.categories, caller.value, data.budget, inputs);
      AddTransactionValid(st, caller.value, data, inputs);
      r := Ok(TransactionView(Row(st.nextId, caller.value, data, None), []));
    }

    /** `update_transaction`: the same checks as creation plus a transaction
        row of the caller with that id; its payload is replaced, all its
        splits soft-deleted and the new ones inserted. */
    method UpdateTransaction(header: Option<string>, now: Time, id: Id, data: TransactionData, inputs: seq<SplitInput>)
      returns (r: Result<TransactionView>)
      requires Valid()
      modifies this
      ensures Valid()
      ensures ValidateSplits(inputs).Err? ==> r == Err(BadRequest) && tables == old(tables)
      ensures ValidateSplits(inputs).Ok? && old(Caller(header, now)).Err? ==> r == Err(Unauthorized) && tables == old(tables)
      ensures ValidateSplits(inputs).Ok? && old(Caller(header, now)).Ok? ==>
                var caller := old(Caller(header, now)).value;
                var idx := IndexOwned(old(tables.transactions), id, caller);
                if !TransactionParentsFit(old(tables), caller, data.budget, data.account) || idx.None?
                   || CheckSplitCategories(old(tables.categories), caller, data.budget, inputs).Err? then
                  r == Err(BadRequest) && tables == old(tables)
                else
                  r == Ok(TransactionView(old(tables.transactions)[idx.value].(data := data), []))
                  && tables == Store.UpdateTransaction(old(tables), id, caller, data, inputs, now)
    {
      var checked := ValidateSplits(inputs);
      if checked.Err? {
        return Err(BadRequest);
      }
      var caller := Caller(header, now);
      if caller.Err? {
        return Err(Unauthorized);
      }
      var st := tables;
      var idx := IndexOwned(st.transactions, id, caller.value);
      if !TransactionParentsFit(st, caller.value, data.budget, data.account) || idx.None?
         || CheckSplitCategories(st.categories, caller.value, data.budget, inputs).Err? {
        return Err(BadRequest);
      }
      ReplaceTransaction(id, caller.value, data, inputs, now);
      CheckedSplitsOwned(st.categories, caller.value, data.budget, inputs);
      UpdateTransactionValid(st, id, caller.value, data, inputs, now);
      r := Ok(TransactionView(st.transactions[idx.value].(data := data), []));
    }

    /** `delete_transaction`: as `delete_account`; the splits are kept but
        no longer counted, since their transaction is deleted. */
    method DeleteTransaction(header: Option<string>, now: Time, id: Id) returns (r: Result<()>)
      requires Valid()
      modifies this
      ensures Valid()
      ensures old(Caller(header, now)).Err? ==> r == Err(Unauthorized) && tables == old(tables)
      ensures old(Caller(header, now)).Ok? ==>
                r == Ok(())
                && tables == old(tables).(transactions := SoftDelete(old(tables.transactions), id, old(Caller(header, now)).value, now))
    {
      var caller := Caller(header, now);
      if caller.Err? {
        return Err(Unauthorized);
      }
      DeleteTransactionValid(tables, id, caller.value, now);
      tables := tables.(transactions := SoftDelete(tables.transactions, id, caller.value, now));
      r := Ok(());
    }

    // ------------------------------------------------------------ read models

    /** `dashboard`: inflow and outflow over the caller's live splits of live
        transactions, and what is available. */
    method Dashboard(header: Option<string>, now: Time) returns (r: Result<Dashboard>)
      ensures Caller(header, now).Err? ==> r == Err(Unauthorized)
      ensures Caller(header, now).Ok? ==>
                var caller := Caller(header, now).value;
                && r.Ok?
                && r.value.inflow == TotalInflow(tables.splits, tables.transactions, caller)
                && r.value.outflow == TotalOutflow(tables.splits, tables.transactions, caller)
                && r.value.available == r.value.inflow - r.value.outflow
    {
      var caller := Caller(header, now);
      if caller.Err? {
        return Err(Unauthorized);
      }
      r := Ok(ComputeDashboard(tables.splits, tables.transactions, caller.value));
    }

    /** `month_projection`: authentication first, then the month; one row
        per live category of the caller. */
    method MonthProjection(header: Option<string>, now: Time, month: string) returns (r: Result<seq<CategoryProjection>>)
      ensures Caller(header, now).Err? ==> r == Err(Unauthorized)
      ensures Caller(header, now).Ok? && ParseProjectionMonth(month).Err? ==> r == Err(BadRequest)
      ensures Caller(header, now).Ok? && ParseProjectionMonth(month).Ok? ==>
                var period := ParseProjectionMonth(month).value;
                var live := ListLive(tables.categories, Caller(header, now).value);
                && r.Ok? && |r.value| == |live|
                && forall k :: 0 <= k < |live| ==>
                     && r.value[k].category == live[k].id
                     && r.value[k].assignedAmount == Assigned(tables.assignments, live[k].id, period)
                     && r.value[k].activity == Activity(tables.splits, tables.transactions, live[k].id, period)
                     && r.value[k].available == r.value[k].assignedAmount - r.value[k].activity
    {
      var caller := Caller(header, now);
      if caller.Err? {
        return Err(Unauthorized);
      }
      var period := ParseProjectionMonth(month);
      if period.Err? {
        return Err(BadRequest);
      }
      var rows := Projection.MonthProjection(tables.categories, tables.assignments, tables.transactions, tables.splits,
                                             caller.value, period.value);
      r := Ok(rows);
    }

    // ------------------------------------------------------------ assignments

    /** `list_category_assignments`: NOT_FOUND while the feature is off; the
        caller's live assignments, latest month first. */
    method ListCategoryAssignments(header: Option<string>, now: Time) returns (r: Result<seq<AssignmentView>>)
      requires Valid()
      ensures !assignmentsEnabled ==> r == Err(NotFound)
      ensures assignmentsEnabled && Caller(header, now).Err? ==> r == Err(Unauthorized)
      ensures assignmentsEnabled && Caller(header, now).Ok? ==>
                var sorted := SortNewestFirst(ListLive(tables.assignments, Caller(header, now).value), AssignmentMonth);
                && (forall i :: 0 <= i < |sorted| ==> ListableMonth(sorted[i].data.month))
                && r == Ok(AssignmentViews(sorted))
    {
      if !assignmentsEnabled {
        return Err(NotFound);
      }
      var caller := Caller(header, now);
      if caller.Err? {
        return Err(Unauthorized);
      }
      var live := ListLive(tables.assignments, caller.value);
      var sorted := SortNewestFirst(live, AssignmentMonth);
      forall i | 0 <= i < |sorted| ensures ListableMonth(sorted[i].data.month) {
        assert sorted[i] in multiset(live);
      }
      r := Ok(AssignmentViews(sorted));
    }

    /** `create_category_assignment`: NOT_FOUND while the feature is off;
        then authentication, the month, and a live category of the caller in
        the named live budget. */
    method CreateCategoryAssignment(header: Option<string>, now: Time, budget: Id, category: Id, month: string, amount: int)
      returns (r: Result<AssignmentView>)
      requires Valid()
      modifies this
      ensures Valid()
      ensures !assignmentsEnabled ==> r == Err(NotFound) && tables == old(tables)
      ensures assignmentsEnabled && old(Caller(header, now)).Err? ==> r == Err(Unauthorized) && tables == old(tables)
      ensures assignmentsEnabled && old(Caller(header, now)).Ok? && ParseProjectionMonth(month).Err? ==>
                r == Err(BadRequest) && tables == old(tables)
      ensures assignmentsEnabled && old(Caller(header, now)).Ok? && ParseProjectionMonth(month).Ok? ==>
                var caller := old(Caller(header, now)).value;
                var data := AssignmentData(budget, category, ParseProjectionMonth(month).value, amount);
                if !AssignmentParentsFit(old(tables), caller, budget, category) then
                  r == Err(BadRequest) && tables == old(tables)
                else
                  && r.Ok? && r.value.id == old(tables.nextId) && r.value.amount == amount
                  && r.value.budget == budget && r.value.category == category
                  && ParseProjectionMonth(r.value.month) == Ok(ListedMonth(ParseProjectionMonth(month).value))
                  && (ParseProjectionMonth(month).value.year >= 1 ==> ParseProjectionMonth(r.value.month) == ParseProjectionMonth(month))
                  && tables == old(tables).(assignments := old(tables.assignments) + [Row(old(tables.nextId), caller, data, None)],
                                            nextId := old(tables.nextId) + 1)
    {
      if !assignmentsEnabled {
        return Err(NotFound);
      }
      var caller := Caller(header, now);
      if caller.Err? {
        return Err(Unauthorized);
      }
      var period := ParseProjectionMonth(month);
      if period.Err? {
        return Err(BadRequest);
      }
      var st := tables;
      if !AssignmentParentsFit(st, caller.value, budget, category) {
        return Err(BadRequest);
      }
      ParseProjectionMonthYear(month);
      var data := AssignmentData(budget, category, period.value, amount);
      var id := st.nextId;
      InsertAssignment(caller.value, data);
      r := Ok(ViewOf(Row(id, caller.value, data, None)));
    }

    /** The `INSERT … RETURNING` step of `create_category_assignment`, once the parents are known to fit. */
    method InsertAssignment(caller: Id, data: AssignmentData)
      requires Valid() && OwnedRow(tables.budgets, data.budget, caller)
      requires OwnedRow(tables.categories, data.category, caller) && ListableMonth(data.month)
      modifies this
      ensures Valid()
      ensures tables == old(tables).(assignments := old(tables.assignments) + [Row(old(tables.nextId), caller, data, None)],
                                     nextId := old(tables.nextId) + 1)
    {
      var st := tables;
      AddAssignmentValid(st, caller, data);
      var row := Row(st.nextId, caller, data, None);
      tables := st.(assignments := st.assignments + [row], nextId := st.nextId + 1);
    }
  }
}
