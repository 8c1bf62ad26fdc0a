/**
 `google/protobuf/descriptor.ts`: the general results at the places where this file differs from the
 others, in its defaults, its packed and unpacked integers, and its double.
 */
module DescriptorFacts {
  import opened Wire
  import opened Codec
  import opened Streams
  import opened RoundTrip
  import opened Decoded
  import opened Reencoded
  import opened Fields
  import opened DescriptorSchemas
  import opened DescriptorCodec

  /** A tree of message descriptors, with all the messages below it, comes back normalised from any place
      in any bytes; written a second time it gives the same bytes and comes back as it is. */
  lemma DescriptorTree(m: Msg, before: bytes, after: bytes)
    requires ValidMsg(DescriptorGrammar(), DESCRIPTOR_PROTO, m)
    ensures |m.slots| == |DescriptorGrammar()[DESCRIPTOR_PROTO].plan|
    ensures var g, t := DescriptorGrammar(), DESCRIPTOR_PROTO;
      var b, n := Encode(g, t, m), Norm(g, t, m);
      && Decode(g, t, before + b + after, |before|, |b|) == Got(n, |before| + |b|)
      && ValidMsg(g, t, n) && Encode(g, t, n) == b
      && Decode(g, t, before + Encode(g, t, n) + after, |before|, |b|) == Got(n, |before| + |b|)
  {
    SecondRoundAnywhere(DescriptorGrammar(), DESCRIPTOR_PROTO, m, before, after);
    hide *;
  }

  // ---------------------------------------------------------------- any bytes

  lemma Light0()
    ensures LightPlan(FileDescriptorSetSchema().plan)
    ensures LightPlan(FileDescriptorProtoSchema().plan)
    ensures LightPlan(DescriptorProtoSchema().plan)
    ensures LightPlan(DescriptorProto_ExtensionRangeSchema().plan)
    ensures LightPlan(DescriptorProto_ReservedRangeSchema().plan)
    ensures LightPlan(ExtensionRangeOptionsSchema().plan)
  {
    hide LightPlan;
    IsLight(FileDescriptorSetSchema());
    IsLight(FileDescriptorProtoSchema());
    IsLight(DescriptorProtoSchema());
    IsLight(DescriptorProto_ExtensionRangeSchema());
    IsLight(DescriptorProto_ReservedRangeSchema());
    IsLight(ExtensionRangeOptionsSchema());
  }

  lemma Light1()
    ensures LightPlan(ExtensionRangeOptions_DeclarationSchema().plan)
    ensures LightPlan(FieldDescriptorProtoSchema().plan)
    ensures LightPlan(OneofDescriptorProtoSchema().plan)
    ensures LightPlan(EnumDescriptorProtoSchema().plan)
    ensures LightPlan(EnumDescriptorProto_EnumReservedRangeSchema().plan)
    ensures LightPlan(EnumValueDescriptorProtoSchema().plan)
  {
    hide LightPlan;
    IsLight(ExtensionRangeOptions_DeclarationSchema());
    IsLight(FieldDescriptorProtoSchema());
    IsLight(OneofDescriptorProtoSchema());
    IsLight(EnumDescriptorProtoSchema());
    IsLight(EnumDescriptorProto_EnumReservedRangeSchema());
    IsLight(EnumValueDescriptorProtoSchema());
  }

  lemma Light2()
    ensures LightPlan(ServiceDescriptorProtoSchema().plan)
    ensures LightPlan(MethodDescriptorProtoSchema().plan)
    ensures LightPlan(FileOptionsSchema().plan)
    ensures LightPlan(MessageOptionsSchema().plan)
    ensures LightPlan(FieldOptionsSchema().plan)
    ensures LightPlan(FieldOptions_EditionDefaultSchema().plan)
  {
    hide LightPlan;
    IsLight(ServiceDescriptorProtoSchema());
    IsLight(MethodDescriptorProtoSchema());
    IsLight(FileOptionsSchema());
    IsLight(MessageOptionsSchema());
    IsLight(FieldOptionsSchema());
    IsLight(FieldOptions_EditionDefaultSchema());
  }

  lemma Light3()
    ensures LightPlan(FieldOptions_FeatureSupportSchema().plan)
    ensures LightPlan(OneofOptionsSchema().plan)
    ensures LightPlan(EnumOptionsSchema().plan)
    ensures LightPlan(EnumValueOptionsSchema().plan)
    ensures LightPlan(ServiceOptionsSchema().plan)
    ensures LightPlan(MethodOptionsSchema().plan)
  {
    hide LightPlan;
    IsLight(FieldOptions_FeatureSupportSchema());
    IsLight(OneofOptionsSchema());
    IsLight(EnumOptionsSchema());
    IsLight(EnumValueOptionsSchema());
    IsLight(ServiceOptionsSchema());
    IsLight(MethodOptionsSchema());
  }

  lemma Light4()
    ensures LightPlan(UninterpretedOptionSchema().plan)
    ensures LightPlan(UninterpretedOption_NamePartSchema().plan)
    ensures LightPlan(FeatureSetSchema().plan)
    ensures LightPlan(FeatureSetDefaultsSchema().plan)
    ensures LightPlan(FeatureSetDefaults_FeatureSetEditionDefaultSchema().plan)
    ensures LightPlan(SourceCodeInfoSchema().plan)
  {
    hide LightPlan;
    IsLight(UninterpretedOptionSchema());
    IsLight(UninterpretedOption_NamePartSchema());
    IsLight(FeatureSetSchema());
    IsLight(FeatureSetDefaultsSchema());
    IsLight(FeatureSetDefaults_FeatureSetEditionDefaultSchema());
    IsLight(SourceCodeInfoSchema());
  }

  lemma Light5()
    ensures LightPlan(SourceCodeInfo_LocationSchema().plan)
    ensures LightPlan(GeneratedCodeInfoSchema().plan)
    ensures LightPlan(GeneratedCodeInfo_AnnotationSchema().plan)
  {
    hide LightPlan;
    IsLight(SourceCodeInfo_LocationSchema());
    IsLight(GeneratedCodeInfoSchema());
    IsLight(GeneratedCodeInfo_AnnotationSchema());
  }

  lemma DescriptorLight()
    ensures Light(DescriptorGrammar())
  {
    hide LightPlan;
    Light0();
    Light1();
    Light2();
    Light3();
    Light4();
    Light5();
  }

  /** Whatever bytes decode to any message of the file, it can be encoded again, and comes back as it is
      exactly when no omittable double in it is minus zero. */
  lemma DescriptorComesBack(t: nat, buf: bytes)
    requires t < |DescriptorGrammar()| && Decode(DescriptorGrammar(), t, buf, 0, |buf|).Got? && 15 * |buf| + 20 < TWO_32
    ensures var g := DescriptorGrammar();
      var m := Decode(g, t, buf, 0, |buf|).val;
      && Full(g, t, m)
      && ValidMsg(g, t, m)
      && (Decode(g, t, Encode(g, t, m), 0, |Encode(g, t, m)|) == Got(m, |Encode(g, t, m)|) <==> !HasMinusZero(g, t, m))
  {
    DescriptorLight();
    DecodedComesBack(DescriptorGrammar(), t, buf);
    hide *;
  }

  // ---------------------------------------------------------------- defaults

  // The properties, by their place in the order `encode` visits them.
  const FIELD_LABEL: nat := 2
  const FIELD_TYPE: nat := 3
  const RANGE_VERIFICATION: nat := 3

  lemma DefaultRows()
    ensures var plan := DescriptorGrammar()[FIELD_DESCRIPTOR_PROTO].plan;
      && |plan| == 11 && plan[FIELD_LABEL] == Row(32, KInt32, Implicit(Int(1))) && plan[FIELD_TYPE] == Row(40, KInt32, Implicit(Int(1)))
    ensures var plan := DescriptorGrammar()[EXTENSION_RANGE_OPTIONS].plan;
      |plan| == 4 && plan[RANGE_VERIFICATION] == Row(24, KInt32, Implicit(Int(1)))
  {
    assert DescriptorGrammar()[FIELD_DESCRIPTOR_PROTO] == FieldDescriptorProtoSchema();
    assert DescriptorGrammar()[EXTENSION_RANGE_OPTIONS] == ExtensionRangeOptionsSchema();
  }

  /** A field descriptor with no label or no type comes back as an optional double, label 1 and type 1; a
      label or type that is there comes back as it is, whatever its number. */
  lemma FieldDefaults(m: Msg)
    requires ValidMsg(DescriptorGrammar(), FIELD_DESCRIPTOR_PROTO, m)
    ensures |m.slots| == 11
    ensures var b := Encode(DescriptorGrammar(), FIELD_DESCRIPTOR_PROTO, m);
      var d := Decode(DescriptorGrammar(), FIELD_DESCRIPTOR_PROTO, b, 0, |b|);
      && d.Got? && d.pos == |b| && |d.val.slots| == 11
      && d.val.slots[FIELD_LABEL] == (if m.slots[FIELD_LABEL].vals == [] then Slot([Int(1)]) else m.slots[FIELD_LABEL])
      && d.val.slots[FIELD_TYPE] == (if m.slots[FIELD_TYPE].vals == [] then Slot([Int(1)]) else m.slots[FIELD_TYPE])
  {
    DefaultRows();
    DecodeAll(DescriptorGrammar(), FIELD_DESCRIPTOR_PROTO, m);
    DefaultSlot(DescriptorGrammar(), FIELD_DESCRIPTOR_PROTO, m, FIELD_LABEL, 32);
    DefaultSlot(DescriptorGrammar(), FIELD_DESCRIPTOR_PROTO, m, FIELD_TYPE, 40);
    hide *;
  }

  /** Likewise the verification state of an extension range. */
  lemma RangeDefaults(m: Msg)
    requires ValidMsg(DescriptorGrammar(), EXTENSION_RANGE_OPTIONS, m)
    ensures |m.slots| == 4
    ensures var b := Encode(DescriptorGrammar(), EXTENSION_RANGE_OPTIONS, m);
      var d := Decode(DescriptorGrammar(), EXTENSION_RANGE_OPTIONS, b, 0, |b|);
      && d.Got? && d.pos == |b| && |d.val.slots| == 4
      && d.val.slots[RANGE_VERIFICATION]
         == (if m.slots[RANGE_VERIFICATION].vals == [] then Slot([Int(1)]) else m.slots[RANGE_VERIFICATION])
  {
    DefaultRows();
    DecodeAll(DescriptorGrammar(), EXTENSION_RANGE_OPTIONS, m);
    DefaultSlot(DescriptorGrammar(), EXTENSION_RANGE_OPTIONS, m, RANGE_VERIFICATION, 24);
    hide *;
  }

  lemma DefaultSlot(g: Grammar, t: nat, m: Msg, i: nat, tag: nat)
    requires GrammarOk(g) && t < |g| && ValidMsg(g, t, m) && i < |m.slots| == |g[t].plan|
    requires g[t].plan[i] == Row(tag, KInt32, Implicit(Int(1)))
    ensures Norm(g, t, m).slots[i] == if m.slots[i].vals == [] then Slot([Int(1)]) else m.slots[i]
  {
    var row, slot := g[t].plan[i], m.slots[i];
    assert ValidSlot(g, row, slot);
    if slot.vals != [] {
      assert slot.vals == [slot.vals[0]];
      assert NormVals(g, row, slot) == slot.vals;
    }
  }

  // ---------------------------------------------------------------- repeated integers

  /** The integer lists of the file and their two tags: one per element, and packed. */
  datatype IntList = IntList(message: nat, slot: nat, single: nat, packed: nat)

  const PUBLIC_DEPENDENCY: IntList := IntList(FILE_DESCRIPTOR_PROTO, 3, 80, 82)
  const WEAK_DEPENDENCY: IntList := IntList(FILE_DESCRIPTOR_PROTO, 4, 88, 90)
  const LOCATION_PATH: IntList := IntList(SOURCE_CODE_INFO_LOCATION, 0, 8, 10)
  const LOCATION_SPAN: IntList := IntList(SOURCE_CODE_INFO_LOCATION, 1, 16, 18)

  predicate IsIntList(l: IntList) {
    l == PUBLIC_DEPENDENCY || l == WEAK_DEPENDENCY || l == LOCATION_PATH || l == LOCATION_SPAN
  }

  lemma IntListArms(l: IntList)
    requires IsIntList(l)
    ensures l.message < |DescriptorGrammar()| && l.single < TWO_32 && l.packed < TWO_32
    ensures var s := DescriptorGrammar()[l.message];
      && l.single in s.arms && s.arms[l.single] == Arm(l.slot, KInt32, Push)
      && l.packed in s.arms && s.arms[l.packed] == Arm(l.slot, KInt32, PushPacked)
      && l.slot < |s.base.slots| && s.base.slots[l.slot] == Slot([])
  {
    if l.message == FILE_DESCRIPTOR_PROTO {
      DependencyArms();
      DependencyBase();
    } else {
      LocationArms();
      LocationBase();
    }
    hide DescriptorGrammar, FileDescriptorProtoSchema;
  }

  lemma DependencyArms()
    ensures var s := DescriptorGrammar()[FILE_DESCRIPTOR_PROTO];
      && {80, 82, 88, 90} <= s.arms.Keys
      && s.arms[80] == Arm(3, KInt32, Push) && s.arms[82] == Arm(3, KInt32, PushPacked)
      && s.arms[88] == Arm(4, KInt32, Push) && s.arms[90] == Arm(4, KInt32, PushPacked)
  {
    assert DescriptorGrammar()[FILE_DESCRIPTOR_PROTO] == FileDescriptorProtoSchema();
    hide DescriptorGrammar;
  }

  lemma DependencyBase()
    ensures var s := DescriptorGrammar()[FILE_DESCRIPTOR_PROTO];
      |s.base.slots| == 13 && s.base.slots[3] == Slot([]) && s.base.slots[4] == Slot([])
  {
    assert DescriptorGrammar()[FILE_DESCRIPTOR_PROTO] == FileDescriptorProtoSchema();
    hide DescriptorGrammar;
  }

  /** However any of these lists is cut into single and packed records, negatives included, and whatever
      other records stand between them, it decodes to the whole list; the rest is as without them. */
  lemma IntListsInAnyCutting(l: IntList, ps: seq<Piece>)
    requires IsIntList(l) && l.message < |DescriptorGrammar()| && PiecesOk(DescriptorGrammar(), l.message, l.slot, ps)
    ensures var g, t := DescriptorGrammar(), l.message;
      var bs, rest := Flat(PiecesBytes(g, t, l.slot, l.single, l.packed, ps)), Flat(Others(ps));
      var without := Decode(g, t, rest, 0, |rest|);
      && without.Got? && l.slot < |without.val.slots|
      && Decode(g, t, bs, 0, |bs|) == Got(Msg(without.val.slots[l.slot := IntsSlot(Elements(ps))]), |bs|)
  {
    IntListArms(l);
    AnyCuttingDecodes(DescriptorGrammar(), l.message, l.slot, l.single, l.packed, ps);
    assert [] + Ints(Elements(ps)) == Ints(Elements(ps));
  }

  // ---------------------------------------------------------------- minus zero

  /** An option holding nothing but the double minus zero. */
  const MINUS_ZERO_BYTES: bytes := [49] + MINUS_ZERO

  /** Not a theorem: that whatever decode returns comes back when it is encoded and decoded again. These
      bytes decode to an option whose double is minus zero, which decodes from its encoding as plus zero. */
  lemma MinusZeroIsLost()
    ensures var g, t, b := DescriptorGrammar(), UNINTERPRETED_OPTION, MINUS_ZERO_BYTES;
      var m := UninterpretedOptionMsg(CreateBaseUninterpretedOption().(doubleValue := Some(MINUS_ZERO)));
      && Decode(g, t, b, 0, |b|) == Got(m, |b|)
      && ValidMsg(g, t, m)
      && Decode(g, t, Encode(g, t, m), 0, |Encode(g, t, m)|)
         == Got(UninterpretedOptionMsg(CreateBaseUninterpretedOption()), |Encode(g, t, m)|)
      && m != UninterpretedOptionMsg(CreateBaseUninterpretedOption())
  {
    var g, t := DescriptorGrammar(), UNINTERPRETED_OPTION;
    var o := CreateBaseUninterpretedOption();
    var lost := o.(doubleValue := Some(MINUS_ZERO));
    MinusZeroDecodes();
    DescriptorComesBack(t, MINUS_ZERO_BYTES);
    hide DescriptorGrammar, GrammarOk, Encode, Decode, ValidMsg, Full, HasMinusZero, Norm, UninterpretedOptionMsg;
    DecodeAll(g, t, UninterpretedOptionMsg(lost));
    MinusZeroNorm();
  }

  lemma MinusZeroNorm()
    ensures var o := CreateBaseUninterpretedOption();
      var m := UninterpretedOptionMsg(o.(doubleValue := Some(MINUS_ZERO)));
      && |m.slots| == |DescriptorGrammar()[UNINTERPRETED_OPTION].plan|
      && Norm(DescriptorGrammar(), UNINTERPRETED_OPTION, m) == UninterpretedOptionMsg(o)
      && m != UninterpretedOptionMsg(o)
  {
    var o := CreateBaseUninterpretedOption();
    var lost := o.(doubleValue := Some(MINUS_ZERO));
    UninterpretedOptionNorm(lost);
    assert NormalUninterpretedOption(lost) == o;
    assert PLUS_ZERO[7] != MINUS_ZERO[7];
    hide DescriptorGrammar, GrammarOk, Norm, UninterpretedOptionMsg;
    if UninterpretedOptionMsg(lost) == UninterpretedOptionMsg(o) {
      UninterpretedOptionSame(lost, o);
    }
  }

  lemma MinusZeroDecodes()
    ensures Decode(DescriptorGrammar(), UNINTERPRETED_OPTION, MINUS_ZERO_BYTES, 0, |MINUS_ZERO_BYTES|)
         == Got(UninterpretedOptionMsg(CreateBaseUninterpretedOption().(doubleValue := Some(MINUS_ZERO))), |MINUS_ZERO_BYTES|)
  {
    var g, t, o := DescriptorGrammar(), UNINTERPRETED_OPTION, CreateBaseUninterpretedOption();
    UninterpretedOptionArms();
    UninterpretedOptionBase();
    UninterpretedOptionRows(o);
    assert UNINTERPRETED_OPTION < |g| && 49 < TWO_32;
    hide DescriptorGrammar, GrammarOk, UninterpretedOptionMsg;
    DoubleRecord(g, t, 49, 4, MINUS_ZERO);
    DecodeStream(g, t, [MINUS_ZERO_BYTES], [Set(4, Fixed(MINUS_ZERO))]);
    FlatOne(MINUS_ZERO_BYTES);
    OneEffect(g[t].base, Set(4, Fixed(MINUS_ZERO)));
    UninterpretedOptionSetDoubleValue(o, MINUS_ZERO);
  }

  lemma OneEffect(m: Msg, e: Effect)
    requires EffectOk(e, |m.slots|)
    ensures ApplyAll(m, [e]) == Apply(m, e)
  {
    assert [e][1..] == [];
  }

  lemma DoubleRecord(g: Grammar, t: nat, tag: nat, slot: nat, v: bytes)
    requires GrammarOk(g) && t < |g| && tag < 128 && |v| == 8
    requires tag in g[t].arms && g[t].arms[tag] == Arm(slot, KDouble, Assign)
    ensures IsStream(g, t, [[tag] + v], [Set(slot, Fixed(v))])
  {
    assert v[0..8] == v;
    TaggedRecord(g, t, tag, v, Set(slot, Fixed(v)));
    assert Varint(tag) == [tag];
  }
}
