/** The authentication slice of the store: who is signed in, whether that is
    known, and whether the authentication library has finished starting. */
module UserSlice {
  import opened Optional

  /** The user record the authentication library hands over; a missing name
      part or address is "". */
  datatype User = User(firstName: string, lastName: string, emailAddress: string)

  /** A snapshot of the slice. */
  datatype State = State(user: Option<User>, isAuthenticated: bool, isInitialized: bool)

  /** The three reducer actions with their payloads. `setUser` takes whatever
      it is given, null included. */
  datatype Action = SetUser(payload: Option<User>) | ClearUser | SetInitialized(flag: bool)

  /** `initialState` */
  const Initial := State(None, false, false)

  /** A signed-in user is always an authenticated one. */
  predicate Consistent(s: State) {
    s.user.Some? ==> s.isAuthenticated
  }

  /** The reducer as a function of the state and the action. */
  function Step(s: State, a: Action): (t: State)
    ensures a.SetUser? ==> t.user == a.payload && t.isAuthenticated && t.isInitialized == s.isInitialized
    ensures a.ClearUser? ==> t.user == None && !t.isAuthenticated && t.isInitialized == s.isInitialized
    ensures a.SetInitialized? ==> t.user == s.user && t.isAuthenticated == s.isAuthenticated && t.isInitialized == a.flag
  {
    match a
    case SetUser(payload) => s.(user := payload, isAuthenticated := true)
    case ClearUser => s.(user := None, isAuthenticated := false)
    case SetInitialized(flag) => s.(isInitialized := flag)
  }

  /** Each action keeps a consistent state consistent. */
  lemma StepConsistent(s: State, a: Action)
    requires Consistent(s)
    ensures Consistent(Step(s, a))
  {
  }

  /** Clearing twice is clearing once. */
  lemma ClearUserIdempotent(s: State)
    ensures Step(Step(s, ClearUser), ClearUser) == Step(s, ClearUser)
  {
  }

  /** The state after dispatching the actions in order. */
  function Run(s: State, actions: seq<Action>): State
    decreases |actions|
  {
    if actions == [] then s else Run(Step(s, actions[0]), actions[1..])
  }

  /** Every state reachable from the initial one is consistent: no action
      sequence leaves a user in place without authentication. */
  lemma {:induction false} RunConsistent(s: State, actions: seq<Action>)
    requires Consistent(s)
    ensures Consistent(Run(s, actions))
    decreases |actions|
  {
    if actions != [] {
      StepConsistent(s, actions[0]);
      RunConsistent(Step(s, actions[0]), actions[1..]);
    }
  }

  lemma ReachableConsistent(actions: seq<Action>)
    ensures Consistent(Run(Initial, actions))
  {
    RunConsistent(Initial, actions);
  }

  /** The slice's draft state, which the reducers update in place. */
  class Slice {
    var user: Option<User>
    var isAuthenticated: bool
    var isInitialized: bool

    function Snapshot(): State
      reads this
    {
      State(user, isAuthenticated, isInitialized)
    }

    ghost predicate Valid()
      reads this
    {
      Consistent(Snapshot())
    }

    constructor ()
      ensures Snapshot() == Initial && Valid()
    {
      user := None;
      isAuthenticated := false;
      isInitialized := false;
    }

    /** `setUser` */
    method SetUser(payload: Option<User>)
      requires Valid()
      modifies this
      ensures Snapshot() == Step(old(Snapshot()), Action.SetUser(payload)) && Valid()
    {
      user := payload;
      isAuthenticated := true;
    }

    /** `clearUser` */
    method ClearUser()
      requires Valid()
      modifies this
      ensures Snapshot() == Step(old(Snapshot()), Action.ClearUser) && Valid()
    {
      user := None;
      isAuthenticated := false;
    }

    /** `setInitialized` */
    method SetInitialized(flag: bool)
      requires Valid()
      modifies this
      ensures Snapshot() == Step(old(Snapshot()), Action.SetInitialized(flag)) && Valid()
    {
      isInitialized := flag;
    }
  }
}
