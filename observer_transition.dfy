/** A transition of an observer automaton (ObserverTransition): three-valued trigger
    matching and assertion checking with early exit, late binding of the follow state
    by name, and ordered execution of the transition's actions. */
module ObserverTransition {
  import opened Wrappers

  /** The three-valued answer of a boolean automaton expression. */
  datatype MaybeBoolean = True | False | Maybe

  /** Trigger, assertion and action expressions; their evaluation is not part of this
      model and is passed in as a function. */
  type BoolExpr = nat
  type ActionExpr = nat

  /** A state of the automaton, known by its name. */
  datatype InternalState = InternalState(name: string, stateId: nat)

  /** What the actions of a transition work on: the automaton variables and the pending
      log message of the expression arguments. */
  datatype Binding = Binding(variables: map<string, int>, logMessage: string)

  /** The arguments object handed to expressions and actions. `logged` collects the
      messages handed to the logger. */
  class ExpressionArguments {
    var binding: Binding
    var logged: seq<string>

    constructor (binding: Binding)
      ensures this.binding == binding && logged == []
    {
      this.binding := binding;
      logged := [];
    }
  }

  datatype AutomatonError = InvalidAutomaton(missingName: string)

  /** The position of the first state called `name` at or after `from`, if any. */
  function FirstNamed(states: seq<InternalState>, name: string, from: nat): (r: Option<nat>)
    requires from <= |states|
    ensures r.None? <==> forall i | from <= i < |states| :: states[i].name != name
    ensures r.Some? ==>
      && from <= r.value < |states|
      && states[r.value].name == name
      && (forall j | from <= j < r.value :: states[j].name != name)
    decreases |states| - from
  {
    if from == |states| then None
    else if states[from].name == name then Some(from)
    else FirstNamed(states, name, from + 1)
  }

  /** The state bound by name resolution: the first state called `name`, if any. */
  function FindByName(states: seq<InternalState>, name: string): Option<InternalState>
  {
    match FirstNamed(states, name, 0)
    case Some(i) => Some(states[i])
    case None => None
  }

  /** Running the actions in list order, each on the binding the previous one left. */
  function RunAll(run: (ActionExpr, Binding) -> Binding, actions: seq<ActionExpr>, b: Binding): Binding
  {
    if |actions| == 0 then b else RunAll(run, actions[1..], run(actions[0], b))
  }

  /** Running two lists of actions one after the other is running their concatenation:
      the actions of a transition take effect strictly in list order. */
  lemma {:induction false} RunAllAppend(run: (ActionExpr, Binding) -> Binding, a: seq<ActionExpr>,
                                        c: seq<ActionExpr>, b: Binding)
    ensures RunAll(run, a + c, b) == RunAll(run, c, RunAll(run, a, b))
  {
    if |a| == 0 {
      assert a + c == c;
    } else {
      assert (a + c)[1..] == a[1..] + c;
      RunAllAppend(run, a[1..], c, run(a[0], b));
    }
  }

  class Transition {
    const triggers: seq<BoolExpr>
    const assertions: seq<BoolExpr>
    const actions: seq<ActionExpr>
    const followStateName: string
    var followState: Option<InternalState>

    /** The parser's constructor: only the name of the follow state is known. */
    constructor (triggers: seq<BoolExpr>, assertions: seq<BoolExpr>, actions: seq<ActionExpr>,
                 followStateName: string)
      ensures this.triggers == triggers && this.assertions == assertions && this.actions == actions
      ensures this.followStateName == followStateName && followState == None
    {
      this.triggers := triggers;
      this.assertions := assertions;
      this.actions := actions;
      this.followStateName := followStateName;
      followState := None;
    }

    /** The constructor given the follow state itself: its name becomes the follow-state
        name. */
    constructor WithFollowState(triggers: seq<BoolExpr>, assertions: seq<BoolExpr>, actions: seq<ActionExpr>,
                                followState: InternalState)
      ensures this.triggers == triggers && this.assertions == assertions && this.actions == actions
      ensures this.followState == Some(followState) && followStateName == followState.name
    {
      this.triggers := triggers;
      this.assertions := assertions;
      this.actions := actions;
      this.followState := Some(followState);
      followStateName := followState.name;
    }

    /** setFollowState: a follow state already set is kept; otherwise the first state
        carrying the follow-state name is bound, and an automaton without such a state
        is invalid. */
    method SetFollowState(allStates: seq<InternalState>) returns (r: Result<(), AutomatonError>)
      modifies this
      ensures old(followState).Some? ==> followState == old(followState) && r.Success?
      ensures old(followState).None? ==> followState == FindByName(allStates, followStateName)
      ensures old(followState).None? ==> (r.Failure? <==> FindByName(allStates, followStateName).None?)
      ensures r.Failure? ==> r.error == InvalidAutomaton(followStateName)
    {
      if followState.None? {
        for i := 0 to |allStates|
          invariant followState.None?
          invariant FirstNamed(allStates, followStateName, 0) == FirstNamed(allStates, followStateName, i)
        {
          if allStates[i].name == followStateName {
            followState := Some(allStates[i]);
            return Success(());
          }
        }
        return Failure(InvalidAutomaton(followStateName));
      }
      return Success(());
    }

    /** match: TRUE when every trigger evaluates to TRUE (in particular with no trigger);
        otherwise the value of the first trigger that is not TRUE, after which no further
        trigger is evaluated. */
    method Match(eval: BoolExpr -> MaybeBoolean) returns (r: MaybeBoolean)
      ensures r == True <==> forall i | 0 <= i < |triggers| :: eval(triggers[i]) == True
      ensures r != True ==> exists i | 0 <= i < |triggers| ::
        eval(triggers[i]) == r && forall j | 0 <= j < i :: eval(triggers[j]) == True
    {
      for i := 0 to |triggers|
        invariant forall j | 0 <= j < i :: eval(triggers[j]) == True
      {
        var triggerValue := eval(triggers[i]);
        if triggerValue != True {
          return triggerValue;
        }
      }
      return True;
    }

    /** assertionsHold: the first assertion value that is MAYBE or FALSE, TRUE when there
        is none. */
    method AssertionsHold(eval: BoolExpr -> MaybeBoolean) returns (r: MaybeBoolean)
      ensures r == True <==> forall i | 0 <= i < |assertions| :: eval(assertions[i]) == True
      ensures r != True ==> exists i | 0 <= i < |assertions| ::
        eval(assertions[i]) == r && forall j | 0 <= j < i :: eval(assertions[j]) == True
    {
      for i := 0 to |assertions|
        invariant forall j | 0 <= j < i :: eval(assertions[j]) == True
      {
        var assertionValue := eval(assertions[i]);
        if assertionValue == Maybe || assertionValue == False {
          return assertionValue;
        }
      }
      return True;
    }

    /** executeActions: the actions run in list order on the arguments; a non-empty log
        message left by them is handed to the logger and then cleared. */
    method ExecuteActions(args: ExpressionArguments, run: (ActionExpr, Binding) -> Binding)
      modifies args
      ensures var b := RunAll(run, actions, old(args.binding));
        if |b.logMessage| > 0 then
          args.binding == b.(logMessage := "") && args.logged == old(args.logged) + [b.logMessage]
        else
          args.binding == b && args.logged == old(args.logged)
    {
      for i := 0 to |actions|
        invariant RunAll(run, actions, old(args.binding)) == RunAll(run, actions[i..], args.binding)
        invariant args.logged == old(args.logged)
      {
        args.binding := run(actions[i], args.binding);
        assert actions[i..][1..] == actions[i + 1..];
      }
      if |args.binding.logMessage| > 0 {
        args.logged := args.logged + [args.binding.logMessage];
        args.binding := args.binding.(logMessage := "");
      }
    }
  }
}
