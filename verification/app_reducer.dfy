/**
 * The client's application state and the reducer every dispatched action
 * goes through. The reducer builds a fresh state and never edits the old one,
 * so it is a function from (state, action) to state.
 */
module AppReducer {
  import opened Wrappers
  import opened ExpenseSchema
  import opened Records
  import opened Users

  /** The expenses the client holds, keyed by the group they belong to. */
  type ExpenseCache = map<GroupId, seq<Expense>>

  datatype AppState = AppState(
    isAuthenticated: bool,
    user: Option<PublicUser>,
    groups: seq<Group>,
    expenses: ExpenseCache,
    loading: bool)

  /** `initialState`: signed out, nothing loaded, still loading. */
  const Initial := AppState(false, None, [], map[], true)

  datatype Action =
    | Initialize(sessionUser: Option<PublicUser>, sessionGroups: seq<Group>)
    | Login(loggedIn: PublicUser)
    | Logout
    | AddGroup(group: Group)
    | AddExpense(expense: Expense)
    | SetExpensesForGroup(groupId: GroupId, list: seq<Expense>)
    | AddPayment(payment: Payment)
    | Unknown(name: string)

  /** The group's cached list, or the empty list when none is cached (`state.expenses[id] || []`). */
  function Cached(c: ExpenseCache, id: GroupId): seq<Expense> {
    if id in c then c[id] else []
  }

  /**
   * `reducer(state, action)`. Only the session actions change who is signed
   * in, and they keep "signed in" and "has a user" in step.
   */
  function Reduce(s: AppState, a: Action): (r: AppState)
    ensures r.loading == (s.loading && !a.Initialize? && !a.Logout?)
    ensures !(a.Initialize? || a.Logout? || a.AddGroup?) ==> r.groups == s.groups
    ensures !(a.Initialize? || a.Login? || a.Logout?) ==> r.user == s.user && r.isAuthenticated == s.isAuthenticated
    ensures (s.isAuthenticated <==> s.user.Some?) ==> (r.isAuthenticated <==> r.user.Some?)
  {
    match a
    case Initialize(u, gs) => s.(isAuthenticated := u.Some?, user := u, groups := gs, loading := false)
    case Login(u) => s.(isAuthenticated := true, user := Some(u))
    case Logout => Initial.(loading := false)
    case AddGroup(g) => s.(groups := [g] + s.groups)
    case AddExpense(e) => s.(expenses := s.expenses[e.groupId := [e] + Cached(s.expenses, e.groupId)])
    case SetExpensesForGroup(id, list) => s.(expenses := s.expenses[id := list])
    case AddPayment(_) => s
    case Unknown(_) => s
  }

  /** INITIALIZE: signed in exactly when the payload has a user; user and groups from the payload; loading over; the cache kept. */
  lemma InitializeTakesSession(s: AppState, u: Option<PublicUser>, gs: seq<Group>)
    ensures var r := Reduce(s, Initialize(u, gs));
            && (r.isAuthenticated <==> u.Some?)
            && r.user == u && r.groups == gs && !r.loading
            && r.expenses == s.expenses
  {
  }

  /** LOGIN: signed in as the payload's user; groups, cache and loading kept. */
  lemma LoginKeepsData(s: AppState, u: PublicUser)
    ensures var r := Reduce(s, Login(u));
            && r.isAuthenticated && r.user == Some(u)
            && r.groups == s.groups && r.expenses == s.expenses && r.loading == s.loading
  {
  }

  /** LOGOUT: the initial state with loading over, whatever came before. */
  lemma LogoutForgetsEverything(s: AppState, t: AppState)
    ensures Reduce(s, Logout) == Reduce(t, Logout)
    ensures var r := Reduce(s, Logout);
            && !r.isAuthenticated && r.user == None && r.groups == [] && r.expenses == map[] && !r.loading
  {
  }

  /** ADD_GROUP: the group is put first and the others follow in their old order. */
  lemma AddGroupPrepends(s: AppState, g: Group)
    ensures var r := Reduce(s, AddGroup(g));
            && |r.groups| == |s.groups| + 1 && r.groups[0] == g && r.groups[1..] == s.groups
            && r.expenses == s.expenses && r.user == s.user && r.isAuthenticated == s.isAuthenticated
  {
  }

  /**
   * ADD_EXPENSE: the expense heads its group's list (a list is started when
   * none was cached); every other group's list is untouched.
   */
  lemma AddExpenseTouchesOneGroup(s: AppState, e: Expense)
    ensures var r := Reduce(s, AddExpense(e));
            && r.expenses.Keys == s.expenses.Keys + {e.groupId}
            && r.expenses[e.groupId] == [e] + Cached(s.expenses, e.groupId)
            && (forall id :: id in s.expenses && id != e.groupId ==> r.expenses[id] == s.expenses[id])
            && r.groups == s.groups && r.user == s.user
  {
  }

  /** SET_EXPENSES_FOR_GROUP: only that group's list is replaced. */
  lemma SetExpensesReplacesOne(s: AppState, id: GroupId, list: seq<Expense>)
    ensures var r := Reduce(s, SetExpensesForGroup(id, list));
            && r.expenses.Keys == s.expenses.Keys + {id}
            && r.expenses[id] == list
            && (forall k :: k in s.expenses && k != id ==> r.expenses[k] == s.expenses[k])
            && r.groups == s.groups && r.user == s.user
  {
  }

  /** ADD_PAYMENT and any action the reducer does not know leave the state as it was. */
  lemma IgnoredActions(s: AppState, p: Payment, name: string)
    ensures Reduce(s, AddPayment(p)) == s && Reduce(s, Unknown(name)) == s
  {
  }

  /** The state after a run of dispatches, first to last. */
  function ReduceAll(s: AppState, actions: seq<Action>): AppState
    decreases |actions|
  {
    if actions == [] then s else ReduceAll(Reduce(s, actions[0]), actions[1..])
  }

  /** One ADD_EXPENSE action per expense, in order. */
  function ExpenseActions(es: seq<Expense>): (r: seq<Action>)
    ensures |r| == |es| && forall i :: 0 <= i < |es| ==> r[i] == AddExpense(es[i])
  {
    if es == [] then [] else [AddExpense(es[0])] + ExpenseActions(es[1..])
  }

  function Reversed(es: seq<Expense>): (r: seq<Expense>)
    ensures |r| == |es| && forall i :: 0 <= i < |es| ==> r[i] == es[|es| - 1 - i]
  {
    if es == [] then [] else Reversed(es[1..]) + [es[0]]
  }

  /**
   * Dispatching ADD_EXPENSE for several expenses of one group leaves that
   * group's list newest-first: the later expense ahead of the earlier, all
   * ahead of what was cached before.
   */
  lemma {:induction false} ExpensesNewestFirst(s: AppState, id: GroupId, es: seq<Expense>)
    requires forall i :: 0 <= i < |es| ==> es[i].groupId == id
    ensures Cached(ReduceAll(s, ExpenseActions(es)).expenses, id) == Reversed(es) + Cached(s.expenses, id)
    ensures ReduceAll(s, ExpenseActions(es)).groups == s.groups
    decreases |es|
  {
    if es != [] {
      var next := Reduce(s, AddExpense(es[0]));
      assert ExpenseActions(es)[1..] == ExpenseActions(es[1..]);
      ExpensesNewestFirst(next, id, es[1..]);
      assert Cached(next.expenses, id) == [es[0]] + Cached(s.expenses, id);
      assert Reversed(es) == Reversed(es[1..]) + [es[0]];
    }
  }
}
