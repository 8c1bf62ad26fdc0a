/**
 The encode rows, decode arms and base values of `google/api/http.ts`.
 */
module HttpSchemas {
  import opened Codec

  // The messages of the file, by their place in the grammar.
  const HTTP: nat := 0
  const HTTP_RULE: nat := 1
  const CUSTOM_HTTP_PATTERN: nat := 2

  function HttpSchema(): Schema {
    Schema(
      Msg([Slot([]), Slot([Bool(false)])]),
      [
        Row(10, KMsg(HTTP_RULE), Repeated),  // rules
        Row(16, KBool, Implicit(Bool(false)))  // fullyDecodeReservedExpansion
      ],
      map[
        10 := Arm(0, KMsg(HTTP_RULE), Push),  // rules
        16 := Arm(1, KBool, Assign)  // fullyDecodeReservedExpansion
      ])
  }

  function HttpRuleSchema(): Schema {
    Schema(
      Msg([Slot([Str([])]), Slot([]), Slot([]), Slot([]), Slot([]), Slot([]), Slot([]), Slot([Str([])]), Slot([Str([])]), Slot([])]),
      [
        Row(10, KStr, Implicit(Str([]))),  // selector
        Row(18, KStr, Explicit),  // get
        Row(26, KStr, Explicit),  // put
        Row(34, KStr, Explicit),  // post
        Row(42, KStr, Explicit),  // delete
        Row(50, KStr, Explicit),  // patch
        Row(66, KMsg(CUSTOM_HTTP_PATTERN), Explicit),  // custom
        Row(58, KStr, Implicit(Str([]))),  // body
        Row(98, KStr, Implicit(Str([]))),  // responseBody
        Row(90, KMsg(HTTP_RULE), Repeated)  // additionalBindings
      ],
      map[
        10 := Arm(0, KStr, Assign),  // selector
        18 := Arm(1, KStr, Assign),  // get
        26 := Arm(2, KStr, Assign),  // put
        34 := Arm(3, KStr, Assign),  // post
        42 := Arm(4, KStr, Assign),  // delete
        50 := Arm(5, KStr, Assign),  // patch
        66 := Arm(6, KMsg(CUSTOM_HTTP_PATTERN), Assign),  // custom
        58 := Arm(7, KStr, Assign),  // body
        98 := Arm(8, KStr, Assign),  // responseBody
        90 := Arm(9, KMsg(HTTP_RULE), Push)  // additionalBindings
      ])
  }

  function CustomHttpPatternSchema(): Schema {
    Schema(
      Msg([Slot([Str([])]), Slot([Str([])])]),
      [
        Row(10, KStr, Implicit(Str([]))),  // kind
        Row(18, KStr, Implicit(Str([])))  // path
      ],
      map[
        10 := Arm(0, KStr, Assign),  // kind
        18 := Arm(1, KStr, Assign)  // path
      ])
  }

  /** The messages in their places. */
  function HttpTables(): Grammar {
    [
      HttpSchema(),
      HttpRuleSchema(),
      CustomHttpPatternSchema()
    ]
  }

  lemma HttpFits(g: Grammar)
    requires |g| == 3
    ensures SchemaOk(g, HttpSchema())
  {
  }

  lemma HttpRuleRows0To5(g: Grammar)
    requires |g| == 3
    ensures RowsOk(g, HttpRuleSchema(), 0, 5)
  {
  }

  lemma HttpRuleArms0To5(g: Grammar)
    requires |g| == 3
    ensures ArmsOk(g, HttpRuleSchema(), 0, 5)
  {
  }

  lemma HttpRuleRows5To10(g: Grammar)
    requires |g| == 3
    ensures RowsOk(g, HttpRuleSchema(), 5, 10)
  {
  }

  lemma HttpRuleArms5To10(g: Grammar)
    requires |g| == 3
    ensures ArmsOk(g, HttpRuleSchema(), 5, 10)
  {
  }

  lemma HttpRuleFits(g: Grammar)
    requires |g| == 3
    ensures SchemaOk(g, HttpRuleSchema())
  {
    HttpRuleRows0To5(g);
    HttpRuleArms0To5(g);
    HttpRuleRows5To10(g);
    HttpRuleArms5To10(g);
  }

  lemma CustomHttpPatternFits(g: Grammar)
    requires |g| == 3
    ensures SchemaOk(g, CustomHttpPatternSchema())
  {
  }

  /** Every `encode` of the file writes what the `decode` of the same message reads back, into the
      property it came from, and leaves out exactly the values `createBase` starts from. */
  lemma HttpTablesFit()
    ensures GrammarOk(HttpTables())
  {
    var g := HttpTables();
    hide SchemaOk;
    HttpFits(g);
    HttpRuleFits(g);
    CustomHttpPatternFits(g);
  }

  function HttpGrammar(): (g: Grammar)
    ensures GrammarOk(g) && |g| == 3
  {
    HttpTablesFit();
    HttpTables()
  }
}
