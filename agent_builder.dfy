/** The instruction lookups the agent tree's builder makes, in the order it
    makes them. Building stops at the first lookup that raises. Only the
    lookups are modelled; the agents they configure are not. */
module AgentBuilder {
  import opened Wrappers
  import opened AgentInstructions

  /** One `get_agent_instructions` call: the key and its keywords. */
  datatype Request = Request(agentType: string, kwargs: Kwargs)

  function Lookup(q: Request): Result<string, InstructionError> {
    GetAgentInstructions(q.agentType, q.kwargs)
  }

  /** Running calls one after another: the first exception ends the run and
      is what the run raises; otherwise the run yields every call's value. */
  function Sequence(outcomes: seq<Result<string, InstructionError>>): Result<seq<string>, InstructionError> {
    if outcomes == [] then Ok([])
    else if outcomes[0].Err? then Err(outcomes[0].error)
    else
      var rest := Sequence(outcomes[1..]);
      if rest.Err? then rest else Ok([outcomes[0].value] + rest.value)
  }

  /** A run succeeds exactly when every call does, and then yields each
      call's value in order. */
  lemma {:induction false} SequenceOkIff(outcomes: seq<Result<string, InstructionError>>)
    ensures Sequence(outcomes).Ok? <==> forall i :: 0 <= i < |outcomes| ==> outcomes[i].Ok?
    ensures Sequence(outcomes).Ok? ==>
              |Sequence(outcomes).value| == |outcomes|
              && forall i :: 0 <= i < |outcomes| ==> Sequence(outcomes).value[i] == outcomes[i].value
  {
    if outcomes != [] {
      SequenceOkIff(outcomes[1..]);
      assert forall i :: 1 <= i < |outcomes| ==> outcomes[i] == outcomes[1..][i - 1];
    }
  }

  /** A failed run raises the error of the first failing call. */
  lemma {:induction false} SequenceFirstError(outcomes: seq<Result<string, InstructionError>>)
    requires Sequence(outcomes).Err?
    ensures exists i :: 0 <= i < |outcomes| && outcomes[i] == Err(Sequence(outcomes).error)
                        && forall j :: 0 <= j < i ==> outcomes[j].Ok?
  {
    var e := Sequence(outcomes).error;
    if outcomes[0].Ok? {
      var tail := outcomes[1..];
      assert Sequence(tail) == Err(e);
      SequenceFirstError(tail);
      var i :| 0 <= i < |tail| && tail[i] == Err(e) && forall j :: 0 <= j < i ==> tail[j].Ok?;
      assert outcomes[i + 1] == Err(e);
      forall j | 0 <= j < i + 1 ensures outcomes[j].Ok? {
        if j > 0 {
          assert outcomes[j] == tail[j - 1];
        }
      }
    }
  }

  /** Conversely, a call that fails after calls that all succeed is the
      run's error. */
  lemma {:induction false} SequenceStopsAt(outcomes: seq<Result<string, InstructionError>>, i: nat)
    requires i < |outcomes| && outcomes[i].Err?
    requires forall j :: 0 <= j < i ==> outcomes[j].Ok?
    ensures Sequence(outcomes) == Err(outcomes[i].error)
  {
    if i > 0 {
      SequenceStopsAt(outcomes[1..], i - 1);
    }
  }

  /** Running two lists of calls one after the other runs the first, then
      the second, and stops at the first error. */
  lemma {:induction false} SequenceConcat(a: seq<Result<string, InstructionError>>, b: seq<Result<string, InstructionError>>)
    ensures Sequence(a + b)
         == if Sequence(a).Err? then Sequence(a)
            else if Sequence(b).Err? then Sequence(b)
            else Ok(Sequence(a).value + Sequence(b).value)
  {
    if a == [] {
      assert a + b == b;
      if Sequence(b).Ok? {
        assert [] + Sequence(b).value == Sequence(b).value;
      }
    } else {
      assert (a + b)[0] == a[0];
      assert (a + b)[1..] == a[1..] + b;
      SequenceConcat(a[1..], b);
      if Sequence(a).Ok? && Sequence(b).Ok? {
        var x := [a[0].value];
        assert x + (Sequence(a[1..]).value + Sequence(b).value)
            == (x + Sequence(a[1..]).value) + Sequence(b).value;
      }
    }
  }

  /** The profile the builder passes to the root agent's prompt. */
  const RootKwargs: Kwargs := map[
    "user_name" := "John Doe", "user_preference_language" := "English",
    "user_accessiblity_station" := "DXB", "user_role" := "caterer",
    "user_preference_currency" := "USD"]

  /** The keys the builder looks up without keywords, in the order it looks
      them up: the greeting, farewell, flight-information, meal-order,
      meal-issue and multi-tool agents' prompts. The meal-issue agent's key
      is the parameter. */
  function SubAgentKeys(mealIssueKey: string): seq<string> {
    [GreetingAgent, FarewellAgent, FlightInfoAgent, MealOrderInfoAgent, mealIssueKey, MainMultiToolAgent]
  }

  /** The outcomes of looking up each key without keywords. */
  function Lookups(keys: seq<string>): seq<Result<string, InstructionError>> {
    seq(|keys|, i requires 0 <= i < |keys| => GetAgentInstructions(keys[i], map[]))
  }

  /** `build_root_agent`, as far as the prompts go: the sub-agents' lookups
      run in order, then the root agent's with the user's profile, and the
      first that raises ends the build. */
  function BuildRootAgent(keys: seq<string>, profile: Kwargs): Result<seq<string>, InstructionError> {
    Sequence(Lookups(keys) + [GetAgentInstructions(CateringAgent, profile)])
  }

  /** The build as written: the meal-issue agent asks for the key
      "meal_issue_agent". */
  function BuildAsWritten(): Result<seq<string>, InstructionError> {
    BuildRootAgent(SubAgentKeys("meal_issue_agent"), RootKwargs)
  }

  /** The build as intended: the meal-issue agent uses the table's
      meal-support prompt. */
  function BuildCorrected(): Result<seq<string>, InstructionError> {
    BuildRootAgent(SubAgentKeys(MealSupportAgent), RootKwargs)
  }

  /** A key that is in the table and is not the root agent's. */
  predicate Plain(key: string) {
    key in AgentTypes && key != CateringAgent
  }

  /** The first key the table does not hold, after keys that all lead to a
      plain prompt, makes the build raise `ValueError` naming that key,
      whatever the profile. */
  lemma BuildFailsAtUnknownKey(keys: seq<string>, profile: Kwargs, i: nat)
    requires i < |keys| && keys[i] !in AgentTypes
    requires forall j :: 0 <= j < i ==> Plain(keys[j])
    ensures BuildRootAgent(keys, profile) == Err(ValueError(UnknownAgentMessage(keys[i])))
  {
    var outcomes := Lookups(keys) + [GetAgentInstructions(CateringAgent, profile)];
    forall j | 0 <= j < i ensures outcomes[j].Ok? {
      PlainAgentSucceeds(keys[j]);
    }
    SequenceStopsAt(outcomes, i);
  }

  /** When every key leads to a plain prompt and the profile has the five
      keywords the root prompt needs, the build yields every plain prompt in
      order and then the root prompt filled in with the profile. */
  lemma BuildSucceeds(keys: seq<string>, profile: Kwargs)
    requires forall j :: 0 <= j < |keys| ==> Plain(keys[j])
    requires forall n :: n in UserFields ==> n in profile
    ensures BuildRootAgent(keys, profile).Ok?
    ensures |BuildRootAgent(keys, profile).value| == |keys| + 1
    ensures forall j :: 0 <= j < |keys| ==> BuildRootAgent(keys, profile).value[j] == Prose(keys[j], 0)
    ensures Ok(BuildRootAgent(keys, profile).value[|keys|]) == GetAgentInstructions(CateringAgent, profile)
  {
    var outcomes := Lookups(keys) + [GetAgentInstructions(CateringAgent, profile)];
    forall j | 0 <= j < |keys| ensures outcomes[j] == Ok(Prose(keys[j], 0)) {
      PlainAgentsNeedNoKeywords(keys[j], map[]);
    }
    CateringSucceeds(profile);
    SequenceOkIff(outcomes);
  }

  /** No key of the table is sixteen characters long, as "meal_issue_agent" is. */
  lemma MealIssueIsUnknown()
    ensures "meal_issue_agent" !in AgentTypes
  {
    assert |"meal_issue_agent"| == 16;
    forall i | 0 <= i < |AgentTypes| ensures |AgentTypes[i]| != 16 {
    }
  }

  /** The four keys looked up before the meal-issue agent's lead to plain
      prompts. */
  lemma LeadingKeysArePlain(mealIssueKey: string)
    ensures forall j :: 0 <= j < 4 ==> Plain(SubAgentKeys(mealIssueKey)[j])
  {
    var keys := SubAgentKeys(mealIssueKey);
    forall j | 0 <= j < 4 ensures Plain(keys[j]) {
      if j == 0 {
      } else if j == 1 {
      } else if j == 2 {
      } else {
      }
    }
  }

  /** As written, the build raises `ValueError` at the fifth lookup, because
      "meal_issue_agent" is not a key of the table. */
  lemma BuildAsWrittenFails()
    ensures "meal_issue_agent" !in AgentTypes
    ensures BuildAsWritten() == Err(ValueError(UnknownAgentMessage("meal_issue_agent")))
  {
    MealIssueIsUnknown();
    LeadingKeysArePlain("meal_issue_agent");
    BuildFailsAtUnknownKey(SubAgentKeys("meal_issue_agent"), RootKwargs, 4);
  }

  /** Every key the corrected builder looks up leads to a plain prompt. */
  lemma CorrectedKeysArePlain()
    ensures forall j :: 0 <= j < 6 ==> Plain(SubAgentKeys(MealSupportAgent)[j])
  {
    var keys := SubAgentKeys(MealSupportAgent);
    LeadingKeysArePlain(MealSupportAgent);
    assert Plain(keys[4]);
    assert Plain(keys[5]);
  }

  /** Corrected, the build succeeds: seven prompts, the last being the root
      prompt with the builder's profile filled in. */
  lemma BuildCorrectedSucceeds()
    ensures BuildCorrected().Ok?
    ensures |BuildCorrected().value| == 7
    ensures Ok(BuildCorrected().value[6]) == GetAgentInstructions(CateringAgent, RootKwargs)
  {
    CorrectedKeysArePlain();
    BuildSucceeds(SubAgentKeys(MealSupportAgent), RootKwargs);
  }
}
