/** The instruction table of the agents: one prompt template per agent type,
    looked up by key and filled in with `str.format`-style keyword
    substitution. A key outside the table is a `ValueError`; a placeholder with
    no matching keyword is a `KeyError`. The prose of the prompts is not
    modelled: each template keeps its placeholders, in order, and stands for
    its text by a tag naming the agent. */
module AgentInstructions {
  import opened Wrappers

  /** A template is text with named `{placeholders}` in it. */
  datatype Piece = Text(text: string) | Field(name: string)

  type Template = seq<Piece>

  /** The keyword arguments passed to the lookup. */
  type Kwargs = map<string, string>

  /** The two exceptions the lookup can raise. */
  datatype InstructionError = KeyError(key: string) | ValueError(message: string)

  // ---------------------------------------------------------------------------
  // Keyword substitution

  /** The placeholder names of a template, in the order they occur. */
  function Fields(t: Template): (names: seq<string>)
    ensures |names| <= |t|
  {
    if t == [] then []
    else (if t[0].Field? then [t[0].name] else []) + Fields(t[1..])
  }

  /** Every placeholder of `t` has a keyword argument. */
  predicate Bound(t: Template, kwargs: Kwargs) {
    forall n :: n in Fields(t) ==> n in kwargs
  }

  /** The text of a template with its placeholders left out. */
  function Literal(t: Template): string {
    if t == [] then ""
    else (if t[0].Text? then t[0].text else "") + Literal(t[1..])
  }

  /** The text a piece contributes: its prose, or its keyword's value. */
  function PieceText(p: Piece, kwargs: Kwargs): string
    requires p.Field? ==> p.name in kwargs
  {
    if p.Text? then p.text else kwargs[p.name]
  }

  /** `template.format(**kwargs)`, scanning left to right: each placeholder
      is replaced by its keyword's value, and the first placeholder without a
      keyword raises `KeyError` naming it. */
  function Format(t: Template, kwargs: Kwargs): Result<string, InstructionError> {
    if t == [] then Ok("")
    else if t[0].Field? && t[0].name !in kwargs then Err(KeyError(t[0].name))
    else
      var rest := Format(t[1..], kwargs);
      if rest.Err? then rest else Ok(PieceText(t[0], kwargs) + rest.value)
  }

  /** Formatting succeeds exactly when every placeholder has a keyword, and
      the only exception it raises is a `KeyError`. */
  lemma {:induction false} FormatOkIff(t: Template, kwargs: Kwargs)
    ensures Format(t, kwargs).Ok? <==> Bound(t, kwargs)
    ensures Format(t, kwargs).Err? ==> Format(t, kwargs).error.KeyError?
  {
    if t != [] {
      FormatOkIff(t[1..], kwargs);
      assert Fields(t) == (if t[0].Field? then [t[0].name] else []) + Fields(t[1..]);
    }
  }

  /** The `KeyError` names the first placeholder, in template order, that has
      no keyword. */
  lemma {:induction false} FormatFirstMissing(t: Template, kwargs: Kwargs)
    requires Format(t, kwargs).Err?
    ensures exists i :: 0 <= i < |Fields(t)| && Format(t, kwargs).error == KeyError(Fields(t)[i])
                        && Fields(t)[i] !in kwargs
                        && forall j :: 0 <= j < i ==> Fields(t)[j] in kwargs
  {
    var rest := Fields(t[1..]);
    assert Fields(t) == (if t[0].Field? then [t[0].name] else []) + rest;
    if t[0].Field? && t[0].name !in kwargs {
      assert Fields(t)[0] == t[0].name;
    } else {
      FormatFirstMissing(t[1..], kwargs);
      var i :| 0 <= i < |rest| && Format(t[1..], kwargs).error == KeyError(rest[i])
               && rest[i] !in kwargs && forall j :: 0 <= j < i ==> rest[j] in kwargs;
      var k := if t[0].Field? then i + 1 else i;
      assert Fields(t)[k] == rest[i];
      assert forall j :: 0 <= j < k ==> Fields(t)[j] in kwargs by {
        forall j | 0 <= j < k ensures Fields(t)[j] in kwargs {
          if t[0].Field? && j == 0 {
          } else {
            assert Fields(t)[j] == rest[if t[0].Field? then j - 1 else j];
          }
        }
      }
    }
  }

  /** Only the template's own placeholders matter: keyword arguments that
      agree on them give the same result, so extra keywords are ignored. */
  lemma {:induction false} FormatIgnoresOtherKeys(t: Template, kwargs: Kwargs, others: Kwargs)
    requires forall n :: n in Fields(t) ==> (n in kwargs <==> n in others)
    requires forall n :: n in Fields(t) && n in kwargs ==> kwargs[n] == others[n]
    ensures Format(t, kwargs) == Format(t, others)
  {
    if t != [] {
      assert Fields(t) == (if t[0].Field? then [t[0].name] else []) + Fields(t[1..]);
      FormatIgnoresOtherKeys(t[1..], kwargs, others);
    }
  }

  /** A template without placeholders formats to its own text, whatever the
      keywords. */
  lemma {:induction false} FormatPlain(t: Template, kwargs: Kwargs)
    requires Fields(t) == []
    ensures Format(t, kwargs) == Ok(Literal(t))
  {
    if t != [] {
      assert Fields(t[1..]) == [];
      FormatPlain(t[1..], kwargs);
    }
  }

  /** Formatting works piece by piece: the two halves of a template format
      independently and their texts are concatenated; when the left half
      fails, its error wins, as the scan reaches it first. */
  lemma {:induction false} FormatConcat(a: Template, b: Template, kwargs: Kwargs)
    ensures Format(a + b, kwargs)
         == if Format(a, kwargs).Err? then Format(a, kwargs)
            else if Format(b, kwargs).Err? then Format(b, kwargs)
            else Ok(Format(a, kwargs).value + Format(b, kwargs).value)
  {
    if a == [] {
      assert a + b == b;
      if Format(b, kwargs).Ok? {
        assert "" + Format(b, kwargs).value == Format(b, kwargs).value;
      }
    } else {
      assert (a + b)[0] == a[0];
      assert (a + b)[1..] == a[1..] + b;
      FormatConcat(a[1..], b, kwargs);
      if Format(a, kwargs).Ok? && Format(b, kwargs).Ok? {
        var x := PieceText(a[0], kwargs);
        assert x + (Format(a[1..], kwargs).value + Format(b, kwargs).value)
            == (x + Format(a[1..], kwargs).value) + Format(b, kwargs).value;
      }
    }
  }

  // ---------------------------------------------------------------------------
  // The table

  const CateringAgent := "catering_agent_v2"
  const MainMultiToolAgent := "main_multi_tool_agent"
  const GreetingAgent := "greeting_agent"
  const FarewellAgent := "farewell_agent"
  const FlightInfoAgent := "flight_info_agent"
  const MealOrderInfoAgent := "meal_order_info_agent"
  const MealSupportAgent := "meal_support_agent"

  /** The keys of the table, in the order the table lists them. */
  const AgentTypes: seq<string> := [
    CateringAgent, MainMultiToolAgent, GreetingAgent, FarewellAgent,
    FlightInfoAgent, MealOrderInfoAgent, MealSupportAgent,
    "stock_count_agent", "export_text_agent", "erp_agent",
    "stock_count_reconciliation_agent", "post_approval_export_agent", "knowledge_agent"]

  /** The five user-profile placeholders of the root agent's prompt, in the
      order they occur. */
  const UserFields: seq<string> := [
    "user_name", "user_preference_language", "user_accessiblity_station",
    "user_role", "user_preference_currency"]

  /** The tag that stands for the `i`-th stretch of prose of an agent's prompt. */
  function Prose(agentType: string, i: nat): string {
    "[" + agentType + " prompt, part " + [('0' as int + i % 10) as char] + "]"
  }

  /** A prompt that is prose around the placeholders `names`, in order:
      prose, placeholder, prose, ..., placeholder, prose. */
  function Slots(agentType: string, names: seq<string>, i: nat): (t: Template)
    ensures Fields(t) == names
    decreases |names|
  {
    if names == [] then [Text(Prose(agentType, i))]
    else
      var rest := Slots(agentType, names[1..], i + 1);
      var t := [Text(Prose(agentType, i)), Field(names[0])] + rest;
      assert t[1..][1..] == rest;
      t
  }

  /** The text `Slots(agentType, names, i)` formats to when every name has a
      keyword: each placeholder replaced by its keyword's value. */
  function Fill(agentType: string, names: seq<string>, kwargs: Kwargs, i: nat): string
    requires forall n :: n in names ==> n in kwargs
    decreases |names|
  {
    if names == [] then Prose(agentType, i)
    else Prose(agentType, i) + kwargs[names[0]] + Fill(agentType, names[1..], kwargs, i + 1)
  }

  lemma {:induction false} FormatSlots(agentType: string, names: seq<string>, kwargs: Kwargs, i: nat)
    requires forall n :: n in names ==> n in kwargs
    ensures Format(Slots(agentType, names, i), kwargs) == Ok(Fill(agentType, names, kwargs, i))
    decreases |names|
  {
    if names != [] {
      var rest := Slots(agentType, names[1..], i + 1);
      var t := Slots(agentType, names, i);
      var tail := t[1..];
      assert tail[0] == Field(names[0]) && tail[1..] == rest;
      FormatSlots(agentType, names[1..], kwargs, i + 1);
      var f := Fill(agentType, names[1..], kwargs, i + 1);
      assert Format(tail, kwargs) == Ok(kwargs[names[0]] + f);
      assert Prose(agentType, i) + (kwargs[names[0]] + f) == Prose(agentType, i) + kwargs[names[0]] + f;
    } else {
      assert Slots(agentType, names, i)[1..] == [];
      assert Prose(agentType, i) + "" == Prose(agentType, i);
    }
  }

  /** The root agent's prompt: prose around the five profile placeholders. */
  function CateringTemplate(): (t: Template)
    ensures Fields(t) == UserFields
  {
    Slots(CateringAgent, UserFields, 0)
  }

  /** Every other prompt is plain prose: no braces occur in it. */
  function PlainTemplate(agentType: string): (t: Template)
    ensures Fields(t) == []
  {
    [Text(Prose(agentType, 0))]
  }

  /** The instruction table as a lookup: the template stored under a key, or
      None for a key the table does not hold. */
  function TemplateOf(agentType: string): Option<Template> {
    if agentType == CateringAgent then Some(CateringTemplate())
    else if agentType in AgentTypes then Some(PlainTemplate(agentType))
    else None
  }

  /** The table has exactly the listed keys; the root agent's template has the
      profile placeholders and every other template has none. */
  lemma TableShape(agentType: string)
    ensures TemplateOf(agentType).Some? <==> agentType in AgentTypes
    ensures TemplateOf(agentType).Some? ==>
              Fields(TemplateOf(agentType).value) == if agentType == CateringAgent then UserFields else []
  {
  }

  function UnknownAgentMessage(agentType: string): string {
    "Unknown agent type: " + agentType
  }

  /** `get_agent_instructions(agent_type, **kwargs)`. An unknown agent type
      raises `ValueError` before any formatting; a known one is formatted. */
  function GetAgentInstructions(agentType: string, kwargs: Kwargs): (r: Result<string, InstructionError>)
    ensures agentType !in AgentTypes ==> r == Err(ValueError(UnknownAgentMessage(agentType)))
  {
    match TemplateOf(agentType)
    case None => Err(ValueError(UnknownAgentMessage(agentType)))
    case Some(t) => Format(t, kwargs)
  }

  /** The lookup succeeds exactly for a listed agent type whose template's
      placeholders all have keywords; for a listed one, the only exception
      is a `KeyError`. */
  lemma GetAgentInstructionsOkIff(agentType: string, kwargs: Kwargs)
    ensures GetAgentInstructions(agentType, kwargs).Ok?
        <==> agentType in AgentTypes && Bound(TemplateOf(agentType).value, kwargs)
    ensures agentType in AgentTypes && GetAgentInstructions(agentType, kwargs).Err? ==>
              GetAgentInstructions(agentType, kwargs).error.KeyError?
  {
    TableShape(agentType);
    if TemplateOf(agentType).Some? {
      FormatOkIff(TemplateOf(agentType).value, kwargs);
    }
  }

  /** Every agent type but the root one needs no keyword at all: its lookup
      succeeds with any keywords (none included) and gives its plain prompt. */
  lemma PlainAgentsNeedNoKeywords(agentType: string, kwargs: Kwargs)
    requires agentType in AgentTypes && agentType != CateringAgent
    ensures GetAgentInstructions(agentType, kwargs) == Ok(Prose(agentType, 0))
    ensures GetAgentInstructions(agentType, kwargs) == GetAgentInstructions(agentType, map[])
  {
    FormatPlain(TemplateOf(agentType).value, kwargs);
    FormatPlain(TemplateOf(agentType).value, map[]);
    var t := PlainTemplate(agentType);
    assert t[1..] == [];
    assert Prose(agentType, 0) + "" == Prose(agentType, 0);
  }

  /** A plain prompt's lookup without keywords succeeds. */
  lemma PlainAgentSucceeds(agentType: string)
    requires agentType in AgentTypes && agentType != CateringAgent
    ensures GetAgentInstructions(agentType, map[]).Ok?
  {
    PlainAgentsNeedNoKeywords(agentType, map[]);
  }

  /** Prose around five placeholders, written out. */
  lemma FillFive(agentType: string, names: seq<string>, kwargs: Kwargs)
    requires |names| == 5 && forall n :: n in names ==> n in kwargs
    ensures Fill(agentType, names, kwargs, 0)
         == Prose(agentType, 0) + kwargs[names[0]] + (Prose(agentType, 1) + kwargs[names[1]]
            + (Prose(agentType, 2) + kwargs[names[2]] + (Prose(agentType, 3) + kwargs[names[3]]
            + (Prose(agentType, 4) + kwargs[names[4]] + Prose(agentType, 5)))))
  {
    var p := i => Prose(agentType, i);
    var v := i requires 0 <= i < 5 => kwargs[names[i]];
    var f5 := Fill(agentType, names[5..], kwargs, 5);
    assert f5 == p(5);
    var f4 := Fill(agentType, names[4..], kwargs, 4);
    assert names[4..][1..] == names[5..];
    assert f4 == p(4) + v(4) + f5;
    var f3 := Fill(agentType, names[3..], kwargs, 3);
    assert names[3..][1..] == names[4..];
    assert f3 == p(3) + v(3) + f4;
    var f2 := Fill(agentType, names[2..], kwargs, 2);
    assert names[2..][1..] == names[3..];
    assert f2 == p(2) + v(2) + f3;
    var f1 := Fill(agentType, names[1..], kwargs, 1);
    assert names[1..][1..] == names[2..];
    assert f1 == p(1) + v(1) + f2;
    assert Fill(agentType, names, kwargs, 0) == p(0) + v(0) + f1;
  }

  /** With the five profile keywords, the root agent's lookup succeeds. */
  lemma CateringSucceeds(kwargs: Kwargs)
    requires forall n :: n in UserFields ==> n in kwargs
    ensures GetAgentInstructions(CateringAgent, kwargs).Ok?
  {
    GetAgentInstructionsOkIff(CateringAgent, kwargs);
  }

  /** With the five profile keywords, the root agent's prompt has each value
      in its placeholder's place, between the same stretches of prose. */
  lemma CateringSubstitution(kwargs: Kwargs)
    requires forall n :: n in UserFields ==> n in kwargs
    ensures GetAgentInstructions(CateringAgent, kwargs)
         == Ok(Prose(CateringAgent, 0) + kwargs["user_name"]
               + (Prose(CateringAgent, 1) + kwargs["user_preference_language"]
               + (Prose(CateringAgent, 2) + kwargs["user_accessiblity_station"]
               + (Prose(CateringAgent, 3) + kwargs["user_role"]
               + (Prose(CateringAgent, 4) + kwargs["user_preference_currency"]
               + Prose(CateringAgent, 5))))))
  {
    FormatSlots(CateringAgent, UserFields, kwargs, 0);
    FillFive(CateringAgent, UserFields, kwargs);
  }

  /** Without a `user_name` keyword the root agent's lookup raises
      `KeyError('user_name')`, the first placeholder of its prompt. */
  lemma CateringNeedsUserName(kwargs: Kwargs)
    requires "user_name" !in kwargs
    ensures GetAgentInstructions(CateringAgent, kwargs) == Err(KeyError("user_name"))
  {
    var t := CateringTemplate();
    assert Fields(t)[0] == "user_name";
    FormatOkIff(t, kwargs);
    FormatFirstMissing(t, kwargs);
  }
}
