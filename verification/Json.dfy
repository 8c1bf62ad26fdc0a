/**
 The JSON form: what every generated `toJSON` and `fromJSON` does, over the same rows as the wire form.
 Covered are messages of strings, flags and sub-messages, which is all of `http.ts` and `auth.ts`.
 */
module Json {
  import opened Wire
  import opened Codec

  /** Property names: those the two files use, and any other. A two-word name has a camelCase and a
      snake_case spelling. */
  datatype Name =
    | AdditionalBindings | Additional_bindings | Body | Custom | Delete
    | DisplayName | Display_name | Email | FullyDecodeReservedExpansion | Fully_decode_reserved_expansion
    | Get | Id | IdToken | Id_token | IsAdmin | Is_admin | Jwt | KindName | Patch | PathName | PictureUrl | Picture_url
    | Post | PutName | ResponseBody | Response_body | Rules | Selector | UserName | Username | Users
    | Other(text: string)

  datatype Json =
    | Undefined
    | Null
    | JBool(b: bool)
    | JNum(i: int)
    | JStr(bs: bytes)
    | JArr(items: seq<Json>)
    | JObj(props: map<Name, Json>)

  /** The two spellings of a property; the same one twice if there is only one. */
  datatype Spelling = Spelling(camel: Name, snake: Name)

  type Names = seq<seq<Spelling>>

  predicate JsonKind(k: Kind) {
    k.KStr? || k.KBool? || k.KMsg?
  }

  predicate Apart(a: Spelling, b: Spelling) {
    a.camel != b.camel && a.camel != b.snake && a.snake != b.camel && a.snake != b.snake
  }

  predicate SpellingsOk(schema: Schema, names: seq<Spelling>) {
    && |names| == |schema.plan| == |schema.base.slots|
    && (forall i, j | 0 <= i < j < |names| :: Apart(names[i], names[j]))
    && (forall i {:trigger schema.plan[i]} | 0 <= i < |schema.plan| ::
          JsonKind(schema.plan[i].kind) && (schema.plan[i].rule.Implicit? ==> !schema.plan[i].kind.KMsg?))
  }

  predicate TablesOk(g: Grammar, ns: Names) {
    && GrammarOk(g)
    && |ns| == |g|
    && forall t {:trigger g[t]} | 0 <= t < |g| :: SpellingsOk(g[t], ns[t])
  }

  lemma RowIsJson(g: Grammar, ns: Names, t: nat, i: nat)
    requires TablesOk(g, ns) && t < |g| && i < |g[t].plan|
    ensures |ns[t]| == |g[t].plan| == |g[t].base.slots| && RowOk(g, g[t], i)
    ensures KindOk(g, g[t].plan[i].kind) && JsonKind(g[t].plan[i].kind)
    ensures g[t].plan[i].rule.Implicit? ==> !g[t].plan[i].kind.KMsg?
  {
    assert SpellingsOk(g[t], ns[t]);
    assert RowOk(g, g[t], i);
  }

  predicate Lists(rule: Rule) {
    rule.Repeated? || rule.Packed?
  }

  // ---------------------------------------------------------------- fromJSON

  predicate IsSet(j: Json) {
    !j.Null? && !j.Undefined?
  }

  /** `object?.name` */
  function Prop(j: Json, name: Name): Json {
    if j.JObj? && name in j.props then j.props[name] else Undefined
  }

  /** `Boolean(x)` */
  function Truth(j: Json): bool {
    match j
    case Undefined => false
    case Null => false
    case JBool(b) => b
    case JNum(i) => i != 0
    case JStr(bs) => bs != []
    case JArr(_) => true
    case JObj(_) => true
  }

  /** The camelCase value counts if it is there at all: set, or for a list property an array. */
  predicate Takes(rule: Rule, j: Json) {
    if Lists(rule) then j.JArr? else IsSet(j)
  }

  function Value(s: Spelling, rule: Rule, j: Json): Json {
    if Takes(rule, Prop(j, s.camel)) then Prop(j, s.camel) else Prop(j, s.snake)
  }

  function Missing(rule: Rule): Slot {
    if rule.Implicit? then Slot([rule.default]) else Slot([])
  }

  /** `fromJSON`; `text` is `String(x)`. No result where it throws: on a property of null or undefined. */
  function FromJson(g: Grammar, ns: Names, text: Json -> bytes, t: nat, j: Json): (r: Option<Msg>)
    requires TablesOk(g, ns) && t < |g|
    ensures r.Some? ==> |r.value.slots| == |g[t].plan|
    decreases j, 4
  {
    match FromProperties(g, ns, text, t, j, |g[t].plan|)
    case None => None
    case Some(slots) => Some(Msg(slots))
  }

  function FromProperties(g: Grammar, ns: Names, text: Json -> bytes, t: nat, j: Json, n: nat): (r: Option<seq<Slot>>)
    requires TablesOk(g, ns) && t < |g| && n <= |g[t].plan|
    ensures r.Some? ==> |r.value| == n
    decreases j, 3, n
  {
    if n == 0 then Some([])
    else
      match FromProperties(g, ns, text, t, j, n - 1)
      case None => None
      case Some(slots) =>
        match FromProperty(g, ns, text, t, j, n - 1)
        case None => None
        case Some(slot) => Some(slots + [slot])
  }

  function FromProperty(g: Grammar, ns: Names, text: Json -> bytes, t: nat, j: Json, i: nat): Option<Slot>
    requires TablesOk(g, ns) && t < |g| && i < |g[t].plan|
    decreases j, 2
  {
    RowIsJson(g, ns, t, i);
    var row := g[t].plan[i];
    var v := Value(ns[t][i], row.rule, j);
    if !IsSet(j) && !Lists(row.rule) then None
    else if !Takes(row.rule, v) then Some(Missing(row.rule))
    else if Lists(row.rule) then
      match FromItems(g, ns, text, row.kind, v.items)
      case None => None
      case Some(vs) => Some(Slot(vs))
    else
      match FromVal(g, ns, text, row.kind, v)
      case None => None
      case Some(x) => Some(Slot([x]))
  }

  function FromItems(g: Grammar, ns: Names, text: Json -> bytes, k: Kind, items: seq<Json>): (r: Option<seq<Val>>)
    requires TablesOk(g, ns) && KindOk(g, k) && JsonKind(k)
    ensures r.Some? ==> |r.value| == |items|
    decreases items
  {
    if items == [] then Some([])
    else
      match FromVal(g, ns, text, k, items[0])
      case None => None
      case Some(v) =>
        match FromItems(g, ns, text, k, items[1..])
        case None => None
        case Some(vs) => Some([v] + vs)
  }

  function FromVal(g: Grammar, ns: Names, text: Json -> bytes, k: Kind, j: Json): Option<Val>
    requires TablesOk(g, ns) && KindOk(g, k) && JsonKind(k)
    decreases j, 5
  {
    match k
    case KStr => Some(Str(text(j)))
    case KBool => Some(Bool(Truth(j)))
    case KMsg(s) =>
      match FromJson(g, ns, text, s, j)
      case None => None
      case Some(m) => Some(Sub(m))
  }

  // ---------------------------------------------------------------- toJSON

  /** A message with a value of the right type in every property that has one. */
  predicate Typed(g: Grammar, ns: Names, t: nat, m: Msg)
    requires TablesOk(g, ns) && t < |g|
    decreases m, 1
  {
    && |m.slots| == |g[t].plan|
    && forall i | 0 <= i < |m.slots| :: TypedSlot(g, ns, t, i, m.slots[i])
  }

  predicate TypedSlot(g: Grammar, ns: Names, t: nat, i: nat, slot: Slot)
    requires TablesOk(g, ns) && t < |g| && i < |g[t].plan|
    decreases slot, 0
  {
    RowIsJson(g, ns, t, i);
    && (!Lists(g[t].plan[i].rule) ==> |slot.vals| <= 1)
    && forall v | v in slot.vals :: TypedVal(g, ns, g[t].plan[i].kind, v)
  }

  predicate TypedVal(g: Grammar, ns: Names, k: Kind, v: Val)
    requires TablesOk(g, ns) && KindOk(g, k) && JsonKind(k)
    decreases v, 0
  {
    match k
    case KStr => v.Str?
    case KBool => v.Bool?
    case KMsg(s) => v.Sub? && Typed(g, ns, s, v.m)
  }

  /** Whether `toJSON` sets a property. */
  predicate Shown(row: Row, slot: Slot) {
    if row.rule.Implicit? then !Omitted(row, slot) else slot.vals != []
  }

  /** `toJSON`, or the same with every property under its snake_case name. */
  function ToJson(g: Grammar, ns: Names, t: nat, m: Msg, snake: bool): Json
    requires TablesOk(g, ns) && t < |g| && Typed(g, ns, t, m)
    decreases m, 3
  {
    JObj(Props(g, ns, t, m, snake, |m.slots|))
  }

  function Key(s: Spelling, snake: bool): Name {
    if snake then s.snake else s.camel
  }

  function Props(g: Grammar, ns: Names, t: nat, m: Msg, snake: bool, n: nat): map<Name, Json>
    requires TablesOk(g, ns) && t < |g| && Typed(g, ns, t, m) && n <= |m.slots|
    decreases m, 2, n
  {
    if n == 0 then map[]
    else
      assert TypedSlot(g, ns, t, n - 1, m.slots[n - 1]);
      var obj := Props(g, ns, t, m, snake, n - 1);
      if !Shown(g[t].plan[n - 1], m.slots[n - 1]) then obj
      else obj[Key(ns[t][n - 1], snake) := SlotJson(g, ns, t, n - 1, m.slots[n - 1], snake)]
  }

  function SlotJson(g: Grammar, ns: Names, t: nat, i: nat, slot: Slot, snake: bool): Json
    requires TablesOk(g, ns) && t < |g| && i < |g[t].plan| && TypedSlot(g, ns, t, i, slot)
    requires Shown(g[t].plan[i], slot)
    decreases slot, 1
  {
    RowIsJson(g, ns, t, i);
    var k := g[t].plan[i].kind;
    assert forall v | v in slot.vals :: TypedVal(g, ns, k, v);
    if Lists(g[t].plan[i].rule) then
      JArr(seq(|slot.vals|, j requires 0 <= j < |slot.vals| => ValJson(g, ns, k, slot.vals[j], snake)))
    else ValJson(g, ns, k, slot.vals[0], snake)
  }

  function ValJson(g: Grammar, ns: Names, k: Kind, v: Val, snake: bool): Json
    requires TablesOk(g, ns) && KindOk(g, k) && JsonKind(k) && TypedVal(g, ns, k, v)
    decreases v, 1
  {
    match k
    case KStr => JStr(v.bs)
    case KBool => JBool(v.b)
    case KMsg(s) => ToJson(g, ns, s, v.m, snake)
  }

  // ---------------------------------------------------------------- spellings of a message

  /** `j` is some JSON spelling of `m`: each property, at each depth, under either name, the camelCase
      one counting when both are there; omitted, or null, if it is missing or the default; and with any
      other properties besides. */
  predicate Spells(g: Grammar, ns: Names, t: nat, m: Msg, j: Json)
    requires TablesOk(g, ns) && t < |g| && Typed(g, ns, t, m)
    decreases m, 1
  {
    && j.JObj?
    && forall i | 0 <= i < |m.slots| ::
         TypedSlot(g, ns, t, i, m.slots[i]) && SpellsSlot(g, ns, t, i, m.slots[i], Value(ns[t][i], g[t].plan[i].rule, j))
  }

  predicate SpellsSlot(g: Grammar, ns: Names, t: nat, i: nat, slot: Slot, j: Json)
    requires TablesOk(g, ns) && t < |g| && i < |g[t].plan| && TypedSlot(g, ns, t, i, slot)
    decreases slot, 0
  {
    RowIsJson(g, ns, t, i);
    var row := g[t].plan[i];
    assert forall v | v in slot.vals :: TypedVal(g, ns, row.kind, v);
    if !Takes(row.rule, j) then !Shown(row, slot)
    else if Lists(row.rule) then
      |j.items| == |slot.vals| && forall x | 0 <= x < |slot.vals| :: SpellsVal(g, ns, row.kind, slot.vals[x], j.items[x])
    else slot.vals != [] && SpellsVal(g, ns, row.kind, slot.vals[0], j)
  }

  predicate SpellsVal(g: Grammar, ns: Names, k: Kind, v: Val, j: Json)
    requires TablesOk(g, ns) && KindOk(g, k) && JsonKind(k) && TypedVal(g, ns, k, v)
    decreases v, 0
  {
    match k
    case KStr => j == JStr(v.bs)
    case KBool => j == JBool(v.b)
    case KMsg(s) => Spells(g, ns, s, v.m, j)
  }

  /** `String(x)` leaves a string as it is. */
  ghost predicate KeepsStrings(text: Json -> bytes) {
    forall s :: text(JStr(s)) == s
  }
}
