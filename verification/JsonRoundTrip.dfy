/**
 Reading JSON back: every spelling of a message, whatever mixture of camelCase and snake_case names and
 whatever else the objects hold, gives the same normal form as the wire.
 */
module JsonRoundTrip {
  import opened Wire
  import opened Codec
  import opened Reencoded
  import opened RoundTrip
  import opened Json

  // ---------------------------------------------------------------- every spelling reads back

  lemma {:induction false} SpelledReads(g: Grammar, ns: Names, text: Json -> bytes, t: nat, m: Msg, j: Json)
    requires TablesOk(g, ns) && t < |g| && Typed(g, ns, t, m) && KeepsStrings(text)
    requires Spells(g, ns, t, m, j)
    ensures FromJson(g, ns, text, t, j) == Some(Norm(g, t, m))
    decreases m, 1
  {
    forall i: nat | i < |m.slots|
      ensures FromProperty(g, ns, text, t, j, i) == Some(Norm(g, t, m).slots[i])
    {
      assert TypedSlot(g, ns, t, i, m.slots[i]);
      PropertyReads(g, ns, text, t, i, m.slots[i], j);
    }
    PropertiesRead(g, ns, text, t, j, Norm(g, t, m).slots, |m.slots|);
    assert Norm(g, t, m).slots[..|m.slots|] == Norm(g, t, m).slots;
  }

  lemma {:induction false} PropertiesRead(g: Grammar, ns: Names, text: Json -> bytes, t: nat, j: Json,
      slots: seq<Slot>, n: nat)
    requires TablesOk(g, ns) && t < |g| && n <= |slots| == |g[t].plan|
    requires forall i: nat | i < |slots| :: FromProperty(g, ns, text, t, j, i) == Some(slots[i])
    ensures FromProperties(g, ns, text, t, j, n) == Some(slots[..n])
    decreases n
  {
    if n > 0 {
      PropertiesRead(g, ns, text, t, j, slots, n - 1);
      assert slots[..n] == slots[..n - 1] + [slots[n - 1]];
    }
  }

  lemma {:induction false} PropertyReads(g: Grammar, ns: Names, text: Json -> bytes, t: nat, i: nat, slot: Slot,
      j: Json)
    requires TablesOk(g, ns) && t < |g| && i < |g[t].plan| && TypedSlot(g, ns, t, i, slot) && KeepsStrings(text)
    requires |ns[t]| == |g[t].plan| && j.JObj? && KindOk(g, g[t].plan[i].kind)
    requires SpellsSlot(g, ns, t, i, slot, Value(ns[t][i], g[t].plan[i].rule, j))
    ensures FromProperty(g, ns, text, t, j, i) == Some(NormSlot(g, g[t].plan[i], slot))
    decreases slot, 0
  {
    RowIsJson(g, ns, t, i);
    var row := g[t].plan[i];
    var v := Value(ns[t][i], row.rule, j);
    var norm := NormVals(g, row, slot);
    assert forall x | x in slot.vals :: TypedVal(g, ns, row.kind, x);
    if !Takes(row.rule, v) {
      assert slot.vals == [] ==> norm == [];
    } else if Lists(row.rule) {
      forall x | 0 <= x < |slot.vals|
        ensures FromVal(g, ns, text, row.kind, v.items[x]) == Some(norm[x])
      {
        ValReads(g, ns, text, row.kind, slot.vals[x], v.items[x]);
      }
      ItemsRead(g, ns, text, row.kind, v.items, norm);
    } else {
      ValReads(g, ns, text, row.kind, slot.vals[0], v);
      assert norm == [NormVal(g, row.kind, slot.vals[0])];
    }
  }

  lemma {:induction false} ItemsRead(g: Grammar, ns: Names, text: Json -> bytes, k: Kind, items: seq<Json>,
      vs: seq<Val>)
    requires TablesOk(g, ns) && KindOk(g, k) && JsonKind(k) && |items| == |vs|
    requires forall x | 0 <= x < |items| :: FromVal(g, ns, text, k, items[x]) == Some(vs[x])
    ensures FromItems(g, ns, text, k, items) == Some(vs)
    decreases |items|
  {
    if items != [] {
      ItemsRead(g, ns, text, k, items[1..], vs[1..]);
      assert vs == [vs[0]] + vs[1..];
    }
  }

  lemma {:induction false} ValReads(g: Grammar, ns: Names, text: Json -> bytes, k: Kind, v: Val, j: Json)
    requires TablesOk(g, ns) && KindOk(g, k) && JsonKind(k) && TypedVal(g, ns, k, v) && KeepsStrings(text)
    requires SpellsVal(g, ns, k, v, j)
    ensures FromVal(g, ns, text, k, j) == Some(NormVal(g, k, v))
    decreases v, 0
  {
    if k.KMsg? {
      SpelledReads(g, ns, text, k.schema, v.m, j);
    }
  }

  // ---------------------------------------------------------------- toJSON is a spelling, in either case

  /** Which keys the first `n` properties put on the object: only their own. */
  lemma {:induction false} PropsAt(g: Grammar, ns: Names, t: nat, m: Msg, snake: bool, n: nat, i: nat)
    requires TablesOk(g, ns) && t < |g| && Typed(g, ns, t, m) && n <= |m.slots| && i < |m.slots| == |ns[t]|
    requires TypedSlot(g, ns, t, i, m.slots[i])
    ensures var obj, s, shown := Props(g, ns, t, m, snake, n), ns[t][i], i < n && Shown(g[t].plan[i], m.slots[i]);
      && (Key(s, snake) in obj <==> shown)
      && (shown ==> obj[Key(s, snake)] == SlotJson(g, ns, t, i, m.slots[i], snake))
      && (s.camel != s.snake ==> Key(s, !snake) !in obj)
    decreases n
  {
    assert SpellingsOk(g[t], ns[t]);
    if n > 0 {
      PropsAt(g, ns, t, m, snake, n - 1, i);
      if i < n - 1 {
        assert Apart(ns[t][i], ns[t][n - 1]);
      } else if n - 1 < i {
        assert Apart(ns[t][n - 1], ns[t][i]);
      }
    }
  }

  lemma {:induction false} PrintedSpells(g: Grammar, ns: Names, t: nat, m: Msg, snake: bool)
    requires TablesOk(g, ns) && t < |g| && Typed(g, ns, t, m)
    ensures Spells(g, ns, t, m, ToJson(g, ns, t, m, snake))
    decreases m, 1
  {
    assert SpellingsOk(g[t], ns[t]);
    var j := ToJson(g, ns, t, m, snake);
    forall i | 0 <= i < |m.slots|
      ensures TypedSlot(g, ns, t, i, m.slots[i])
      ensures SpellsSlot(g, ns, t, i, m.slots[i], Value(ns[t][i], g[t].plan[i].rule, j))
    {
      assert TypedSlot(g, ns, t, i, m.slots[i]);
      PropsAt(g, ns, t, m, snake, |m.slots|, i);
      PrintedSlot(g, ns, t, i, m.slots[i], snake);
      PrintedValue(ns[t][i], g[t].plan[i].rule, j, snake);
    }
  }

  lemma PrintedValue(s: Spelling, rule: Rule, j: Json, snake: bool)
    requires j.JObj? && (s.camel != s.snake ==> Key(s, !snake) !in j.props)
    ensures Key(s, snake) !in j.props ==> Value(s, rule, j) == Undefined
    ensures Key(s, snake) in j.props && Takes(rule, j.props[Key(s, snake)]) ==> Value(s, rule, j) == j.props[Key(s, snake)]
  {
  }

  lemma {:induction false} PrintedSlot(g: Grammar, ns: Names, t: nat, i: nat, slot: Slot, snake: bool)
    requires TablesOk(g, ns) && t < |g| && i < |g[t].plan| && TypedSlot(g, ns, t, i, slot)
    ensures Shown(g[t].plan[i], slot) ==>
      var j := SlotJson(g, ns, t, i, slot, snake);
      Takes(g[t].plan[i].rule, j) && SpellsSlot(g, ns, t, i, slot, j)
    ensures !Shown(g[t].plan[i], slot) ==> SpellsSlot(g, ns, t, i, slot, Undefined)
    decreases slot, 0
  {
    RowIsJson(g, ns, t, i);
    var row := g[t].plan[i];
    assert forall v | v in slot.vals :: TypedVal(g, ns, row.kind, v);
    if Shown(row, slot) {
      forall x | 0 <= x < |slot.vals|
        ensures IsSet(ValJson(g, ns, row.kind, slot.vals[x], snake))
        ensures SpellsVal(g, ns, row.kind, slot.vals[x], ValJson(g, ns, row.kind, slot.vals[x], snake))
      {
        assert TypedVal(g, ns, row.kind, slot.vals[x]);
        if row.kind.KMsg? {
          PrintedSpells(g, ns, row.kind.schema, slot.vals[x].m, snake);
        }
      }
    }
  }

  // ---------------------------------------------------------------- main results

  /** `fromJSON(toJSON(m))`, also after every key was renamed to snake_case at every depth, is the normal
      form of `m`: the same function as decoding the encoding. */
  lemma JsonRoundTrips(g: Grammar, ns: Names, text: Json -> bytes, t: nat, m: Msg, snake: bool)
    requires TablesOk(g, ns) && t < |g| && Typed(g, ns, t, m) && KeepsStrings(text)
    ensures FromJson(g, ns, text, t, ToJson(g, ns, t, m, snake)) == Some(Norm(g, t, m))
  {
    PrintedSpells(g, ns, t, m, snake);
    SpelledReads(g, ns, text, t, m, ToJson(g, ns, t, m, snake));
  }

  /** The two forms agree: what comes back over the wire is what comes back over JSON. */
  lemma WireAndJsonAgree(g: Grammar, ns: Names, text: Json -> bytes, t: nat, m: Msg)
    requires TablesOk(g, ns) && t < |g| && Typed(g, ns, t, m) && ValidMsg(g, t, m) && KeepsStrings(text)
    ensures var wire := Decode(g, t, Encode(g, t, m), 0, |Encode(g, t, m)|);
      wire.Got? && FromJson(g, ns, text, t, ToJson(g, ns, t, m, false)) == Some(wire.val)
  {
    JsonRoundTrips(g, ns, text, t, m, false);
    DecodeAll(g, t, m);
    hide *;
  }

  /** The camelCase name wins: beside one that counts, the snake_case property can hold anything. */
  lemma CamelCaseWins(g: Grammar, ns: Names, text: Json -> bytes, t: nat, j: Json, i: nat, shadowed: Json)
    requires TablesOk(g, ns) && t < |g| && i < |g[t].plan| == |ns[t]| && j.JObj?
    requires ns[t][i].camel != ns[t][i].snake
    requires Takes(g[t].plan[i].rule, Prop(j, ns[t][i].camel))
    ensures FromJson(g, ns, text, t, JObj(j.props[ns[t][i].snake := shadowed])) == FromJson(g, ns, text, t, j)
  {
    var k := JObj(j.props[ns[t][i].snake := shadowed]);
    assert SpellingsOk(g[t], ns[t]);
    forall x: nat | x < |g[t].plan|
      ensures Value(ns[t][x], g[t].plan[x].rule, k) == Value(ns[t][x], g[t].plan[x].rule, j)
    {
      if x < i {
        assert Apart(ns[t][x], ns[t][i]);
      } else if i < x {
        assert Apart(ns[t][i], ns[t][x]);
      }
    }
    SameValuesSameResult(g, ns, text, t, j, k, |g[t].plan|);
  }

  lemma {:induction false} SameValuesSameResult(g: Grammar, ns: Names, text: Json -> bytes, t: nat, j: Json,
      k: Json, n: nat)
    requires TablesOk(g, ns) && t < |g| && n <= |g[t].plan| == |ns[t]| && j.JObj? && k.JObj?
    requires forall x: nat | x < |g[t].plan| :: Value(ns[t][x], g[t].plan[x].rule, k) == Value(ns[t][x], g[t].plan[x].rule, j)
    ensures FromProperties(g, ns, text, t, j, n) == FromProperties(g, ns, text, t, k, n)
    decreases n
  {
    if n > 0 {
      SameValuesSameResult(g, ns, text, t, j, k, n - 1);
      assert FromProperty(g, ns, text, t, j, n - 1) == FromProperty(g, ns, text, t, k, n - 1);
    }
  }

  // ---------------------------------------------------------------- what fromJSON can return

  lemma {:induction false} ParsedIsNormal(g: Grammar, ns: Names, text: Json -> bytes, t: nat, j: Json)
    requires TablesOk(g, ns) && t < |g| && FromJson(g, ns, text, t, j).Some?
    ensures var m := FromJson(g, ns, text, t, j).value; Typed(g, ns, t, m) && Norm(g, t, m) == m
    decreases j, 4
  {
    var m := FromJson(g, ns, text, t, j).value;
    ParsedPropertiesNormal(g, ns, text, t, j, |g[t].plan|);
    assert Norm(g, t, m).slots == m.slots;
  }

  /** A slot that is typed and that normalisation leaves as it is. */
  predicate NormalSlot(g: Grammar, ns: Names, t: nat, i: nat, slot: Slot)
    requires TablesOk(g, ns) && t < |g| && i < |g[t].plan|
  {
    RowIsJson(g, ns, t, i);
    TypedSlot(g, ns, t, i, slot) && NormSlot(g, g[t].plan[i], slot) == slot
  }

  lemma {:induction false} ParsedPropertiesNormal(g: Grammar, ns: Names, text: Json -> bytes, t: nat, j: Json, n: nat)
    requires TablesOk(g, ns) && t < |g| && n <= |g[t].plan| && FromProperties(g, ns, text, t, j, n).Some?
    ensures forall i | 0 <= i < n :: NormalSlot(g, ns, t, i, FromProperties(g, ns, text, t, j, n).value[i])
    decreases j, 3, n
  {
    if n > 0 {
      ParsedPropertiesNormal(g, ns, text, t, j, n - 1);
      ParsedPropertyNormal(g, ns, text, t, j, n - 1);
    }
  }

  lemma {:induction false} ParsedPropertyNormal(g: Grammar, ns: Names, text: Json -> bytes, t: nat, j: Json, i: nat)
    requires TablesOk(g, ns) && t < |g| && i < |g[t].plan| && FromProperty(g, ns, text, t, j, i).Some?
    ensures NormalSlot(g, ns, t, i, FromProperty(g, ns, text, t, j, i).value)
    decreases j, 2
  {
    RowIsJson(g, ns, t, i);
    var row := g[t].plan[i];
    var v := Value(ns[t][i], row.rule, j);
    var slot := FromProperty(g, ns, text, t, j, i).value;
    if !Takes(row.rule, v) {
      assert NormVals(g, row, Slot([])) == [];
      assert row.rule.Implicit? ==> TypedVal(g, ns, row.kind, row.rule.default);
    } else if Lists(row.rule) {
      ParsedItemsNormal(g, ns, text, row.kind, v.items);
      assert NormVals(g, row, slot) == slot.vals;
    } else {
      ParsedValNormal(g, ns, text, row.kind, v);
      assert NormVals(g, row, slot) == slot.vals;
    }
  }

  lemma {:induction false} ParsedItemsNormal(g: Grammar, ns: Names, text: Json -> bytes, k: Kind, items: seq<Json>)
    requires TablesOk(g, ns) && KindOk(g, k) && JsonKind(k) && FromItems(g, ns, text, k, items).Some?
    ensures forall v | v in FromItems(g, ns, text, k, items).value :: TypedVal(g, ns, k, v) && NormVal(g, k, v) == v
    decreases items
  {
    if items != [] {
      ParsedValNormal(g, ns, text, k, items[0]);
      ParsedItemsNormal(g, ns, text, k, items[1..]);
    }
  }

  lemma {:induction false} ParsedValNormal(g: Grammar, ns: Names, text: Json -> bytes, k: Kind, j: Json)
    requires TablesOk(g, ns) && KindOk(g, k) && JsonKind(k) && FromVal(g, ns, text, k, j).Some?
    ensures var v := FromVal(g, ns, text, k, j).value; TypedVal(g, ns, k, v) && NormVal(g, k, v) == v
    decreases j, 5
  {
    if k.KMsg? {
      ParsedIsNormal(g, ns, text, k.schema, j);
    }
  }

  /** Whatever `fromJSON` returns comes back from its JSON form, and from its encoding if its lengths fit. */
  lemma ParsedIsFixed(g: Grammar, ns: Names, text: Json -> bytes, t: nat, j: Json)
    requires TablesOk(g, ns) && t < |g| && KeepsStrings(text) && FromJson(g, ns, text, t, j).Some?
    ensures var m := FromJson(g, ns, text, t, j).value;
      && Typed(g, ns, t, m)
      && FromJson(g, ns, text, t, ToJson(g, ns, t, m, false)) == Some(m)
      && (ValidMsg(g, t, m) ==> Decode(g, t, Encode(g, t, m), 0, |Encode(g, t, m)|) == Got(m, |Encode(g, t, m)|))
  {
    var m := FromJson(g, ns, text, t, j).value;
    ParsedIsNormal(g, ns, text, t, j);
    JsonRoundTrips(g, ns, text, t, m, false);
    if ValidMsg(g, t, m) {
      DecodeAll(g, t, m);
    }
    hide *;
  }
}
