/**
 The properties of the messages of `google/api/http.ts` by name, with the numbers and types of that file, and what
 each does on the wire.
 */
module HttpProperties {
  import opened Codec
  import opened HttpSchemas
  import opened Properties

  function HttpProperties(): seq<Property> {
    [
      Property("rules", 1, 2, KMsg(HTTP_RULE), Repeated),
      Property("fullyDecodeReservedExpansion", 2, 0, KBool, Implicit(Bool(false)))
    ]
  }

  function HttpRuleProperties(): seq<Property> {
    [
      Property("selector", 1, 2, KStr, Implicit(Str([]))),
      Property("get", 2, 2, KStr, Explicit),
      Property("put", 3, 2, KStr, Explicit),
      Property("post", 4, 2, KStr, Explicit),
      Property("delete", 5, 2, KStr, Explicit),
      Property("patch", 6, 2, KStr, Explicit),
      Property("custom", 8, 2, KMsg(CUSTOM_HTTP_PATTERN), Explicit),
      Property("body", 7, 2, KStr, Implicit(Str([]))),
      Property("responseBody", 12, 2, KStr, Implicit(Str([]))),
      Property("additionalBindings", 11, 2, KMsg(HTTP_RULE), Repeated)
    ]
  }

  function CustomHttpPatternProperties(): seq<Property> {
    [
      Property("kind", 1, 2, KStr, Implicit(Str([]))),
      Property("path", 2, 2, KStr, Implicit(Str([])))
    ]
  }

  lemma HttpDescribed()
    ensures Described(HttpSchema(), HttpProperties())
  {
  }

  lemma HttpRuleRows()
    ensures HttpRuleSchema().plan == Rows(HttpRuleProperties())
  {
  }

  lemma HttpRuleTags()
    ensures var s := HttpRuleSchema(); forall tag | tag in s.arms :: TagFits(s.plan, tag, s.arms[tag])
  {
  }

  lemma HttpRuleLists()
    ensures var s, ps := HttpRuleSchema(), HttpRuleProperties(); forall i | 0 <= i < |ps| :: ReadsBoth(s.arms, ps[i], i)
  {
  }

  lemma HttpRuleDescribed()
    ensures Described(HttpRuleSchema(), HttpRuleProperties())
  {
    hide HttpRuleSchema, HttpRuleProperties, TagFits, ReadsBoth;
    HttpRuleRows();
    HttpRuleTags();
    HttpRuleLists();
  }

  lemma CustomHttpPatternDescribed()
    ensures Described(CustomHttpPatternSchema(), CustomHttpPatternProperties())
  {
  }

  /** The properties of each message of the file. */
  function PropertiesOf(message: nat): seq<Property> {
    if message == HTTP then HttpProperties()
    else if message == HTTP_RULE then HttpRuleProperties()
    else if message == CUSTOM_HTTP_PATTERN then CustomHttpPatternProperties()
    else []
  }

  lemma TheGrammar()
    ensures HttpGrammar() == HttpTables()
  {
    hide HttpTables, GrammarOk;
  }

  lemma {:induction false} TablesDescribed(message: nat)
    requires message < |HttpTables()|
    ensures Described(HttpTables()[message], PropertiesOf(message))
  {
    hide GrammarOk, Described, HttpSchema, HttpRuleSchema, CustomHttpPatternSchema, HttpProperties,
      HttpRuleProperties, CustomHttpPatternProperties;
    HttpDescribed();
    HttpRuleDescribed();
    CustomHttpPatternDescribed();
  }

  /** Every property of every message of the file is read and written by its own number, and nothing else is. */
  lemma {:induction false} MessagesHaveProperties(message: nat)
    requires message < |HttpGrammar()|
    ensures HasProperties(HttpGrammar(), message, PropertiesOf(message))
  {
    TheGrammar();
    TablesDescribed(message);
    hide *;
    TableHasProperties(HttpGrammar(), message, PropertiesOf(message));
  }
}
