/**
 The properties of the messages of `google/protobuf/descriptor.ts` by name, with the numbers and types of that
 file, and what each does on the wire.
 */
module DescriptorProperties {
  import opened Wire
  import opened Codec
  import opened RoundTrip
  import opened DescriptorSchemas
  import opened Properties

  function FileDescriptorSetProperties(): seq<Property> {
    [
      Property("file", 1, 2, KMsg(FILE_DESCRIPTOR_PROTO), Repeated)
    ]
  }

  function FileDescriptorProtoProperties(): seq<Property> {
    [
      Property("name", 1, 2, KStr, Implicit(Str([]))),
      Property("package", 2, 2, KStr, Implicit(Str([]))),
      Property("dependency", 3, 2, KStr, Repeated),
      Property("publicDependency", 10, 0, KInt32, Repeated),
      Property("weakDependency", 11, 0, KInt32, Repeated),
      Property("messageType", 4, 2, KMsg(DESCRIPTOR_PROTO), Repeated),
      Property("enumType", 5, 2, KMsg(ENUM_DESCRIPTOR_PROTO), Repeated),
      Property("service", 6, 2, KMsg(SERVICE_DESCRIPTOR_PROTO), Repeated),
      Property("extension", 7, 2, KMsg(FIELD_DESCRIPTOR_PROTO), Repeated),
      Property("options", 8, 2, KMsg(FILE_OPTIONS), Explicit),
      Property("sourceCodeInfo", 9, 2, KMsg(SOURCE_CODE_INFO), Explicit),
      Property("syntax", 12, 2, KStr, Implicit(Str([]))),
      Property("edition", 14, 0, KInt32, Implicit(Int(0)))
    ]
  }

  function DescriptorProtoProperties(): seq<Property> {
    [
      Property("name", 1, 2, KStr, Implicit(Str([]))),
      Property("field", 2, 2, KMsg(FIELD_DESCRIPTOR_PROTO), Repeated),
      Property("extension", 6, 2, KMsg(FIELD_DESCRIPTOR_PROTO), Repeated),
      Property("nestedType", 3, 2, KMsg(DESCRIPTOR_PROTO), Repeated),
      Property("enumType", 4, 2, KMsg(ENUM_DESCRIPTOR_PROTO), Repeated),
      Property("extensionRange", 5, 2, KMsg(DESCRIPTOR_PROTO_EXTENSION_RANGE), Repeated),
      Property("oneofDecl", 8, 2, KMsg(ONEOF_DESCRIPTOR_PROTO), Repeated),
      Property("options", 7, 2, KMsg(MESSAGE_OPTIONS), Explicit),
      Property("reservedRange", 9, 2, KMsg(DESCRIPTOR_PROTO_RESERVED_RANGE), Repeated),
      Property("reservedName", 10, 2, KStr, Repeated)
    ]
  }

  function DescriptorProto_ExtensionRangeProperties(): seq<Property> {
    [
      Property("start", 1, 0, KInt32, Implicit(Int(0))),
      Property("end", 2, 0, KInt32, Implicit(Int(0))),
      Property("options", 3, 2, KMsg(EXTENSION_RANGE_OPTIONS), Explicit)
    ]
  }

  function DescriptorProto_ReservedRangeProperties(): seq<Property> {
    [
      Property("start", 1, 0, KInt32, Implicit(Int(0))),
      Property("end", 2, 0, KInt32, Implicit(Int(0)))
    ]
  }

  function ExtensionRangeOptionsProperties(): seq<Property> {
    [
      Property("uninterpretedOption", 999, 2, KMsg(UNINTERPRETED_OPTION), Repeated),
      Property("declaration", 2, 2, KMsg(EXTENSION_RANGE_OPTIONS_DECLARATION), Repeated),
      Property("features", 50, 2, KMsg(FEATURE_SET), Explicit),
      Property("verification", 3, 0, KInt32, Implicit(Int(1)))
    ]
  }

  function ExtensionRangeOptions_DeclarationProperties(): seq<Property> {
    [
      Property("number", 1, 0, KInt32, Implicit(Int(0))),
      Property("fullName", 2, 2, KStr, Implicit(Str([]))),
      Property("type", 3, 2, KStr, Implicit(Str([]))),
      Property("reserved", 5, 0, KBool, Implicit(Bool(false))),
      Property("repeated", 6, 0, KBool, Implicit(Bool(false)))
    ]
  }

  function FieldDescriptorProtoProperties(): seq<Property> {
    [
      Property("name", 1, 2, KStr, Implicit(Str([]))),
      Property("number", 3, 0, KInt32, Implicit(Int(0))),
      Property("label", 4, 0, KInt32, Implicit(Int(1))),
      Property("type", 5, 0, KInt32, Implicit(Int(1))),
      Property("typeName", 6, 2, KStr, Implicit(Str([]))),
      Property("extendee", 2, 2, KStr, Implicit(Str([]))),
      Property("defaultValue", 7, 2, KStr, Implicit(Str([]))),
      Property("oneofIndex", 9, 0, KInt32, Implicit(Int(0))),
      Property("jsonName", 10, 2, KStr, Implicit(Str([]))),
      Property("options", 8, 2, KMsg(FIELD_OPTIONS), Explicit),
      Property("proto3Optional", 17, 0, KBool, Implicit(Bool(false)))
    ]
  }

  function OneofDescriptorProtoProperties(): seq<Property> {
    [
      Property("name", 1, 2, KStr, Implicit(Str([]))),
      Property("options", 2, 2, KMsg(ONEOF_OPTIONS), Explicit)
    ]
  }

  function EnumDescriptorProtoProperties(): seq<Property> {
    [
      Property("name", 1, 2, KStr, Implicit(Str([]))),
      Property("value", 2, 2, KMsg(ENUM_VALUE_DESCRIPTOR_PROTO), Repeated),
      Property("options", 3, 2, KMsg(ENUM_OPTIONS), Explicit),
      Property("reservedRange", 4, 2, KMsg(ENUM_DESCRIPTOR_PROTO_ENUM_RESERVED_RANGE), Repeated),
      Property("reservedName", 5, 2, KStr, Repeated)
    ]
  }

  function EnumDescriptorProto_EnumReservedRangeProperties(): seq<Property> {
    [
      Property("start", 1, 0, KInt32, Implicit(Int(0))),
      Property("end", 2, 0, KInt32, Implicit(Int(0)))
    ]
  }

  function EnumValueDescriptorProtoProperties(): seq<Property> {
    [
      Property("name", 1, 2, KStr, Implicit(Str([]))),
      Property("number", 2, 0, KInt32, Implicit(Int(0))),
      Property("options", 3, 2, KMsg(ENUM_VALUE_OPTIONS), Explicit)
    ]
  }

  function ServiceDescriptorProtoProperties(): seq<Property> {
    [
      Property("name", 1, 2, KStr, Implicit(Str([]))),
      Property("method", 2, 2, KMsg(METHOD_DESCRIPTOR_PROTO), Repeated),
      Property("options", 3, 2, KMsg(SERVICE_OPTIONS), Explicit)
    ]
  }

  function MethodDescriptorProtoProperties(): seq<Property> {
    [
      Property("name", 1, 2, KStr, Implicit(Str([]))),
      Property("inputType", 2, 2, KStr, Implicit(Str([]))),
      Property("outputType", 3, 2, KStr, Implicit(Str([]))),
      Property("options", 4, 2, KMsg(METHOD_OPTIONS), Explicit),
      Property("clientStreaming", 5, 0, KBool, Implicit(Bool(false))),
      Property("serverStreaming", 6, 0, KBool, Implicit(Bool(false)))
    ]
  }

  function FileOptionsProperties(): seq<Property> {
    [
      Property("javaPackage", 1, 2, KStr, Implicit(Str([]))),
      Property("javaOuterClassname", 8, 2, KStr, Implicit(Str([]))),
      Property("javaMultipleFiles", 10, 0, KBool, Implicit(Bool(false))),
      Property("javaGenerateEqualsAndHash", 20, 0, KBool, Implicit(Bool(false))),
      Property("javaStringCheckUtf8", 27, 0, KBool, Implicit(Bool(false))),
      Property("optimizeFor", 9, 0, KInt32, Implicit(Int(1))),
      Property("goPackage", 11, 2, KStr, Implicit(Str([]))),
      Property("ccGenericServices", 16, 0, KBool, Implicit(Bool(false))),
      Property("javaGenericServices", 17, 0, KBool, Implicit(Bool(false))),
      Property("pyGenericServices", 18, 0, KBool, Implicit(Bool(false))),
      Property("deprecated", 23, 0, KBool, Implicit(Bool(false))),
      Property("ccEnableArenas", 31, 0, KBool, Implicit(Bool(true))),
      Property("objcClassPrefix", 36, 2, KStr, Implicit(Str([]))),
      Property("csharpNamespace", 37, 2, KStr, Implicit(Str([]))),
      Property("swiftPrefix", 39, 2, KStr, Implicit(Str([]))),
      Property("phpClassPrefix", 40, 2, KStr, Implicit(Str([]))),
      Property("phpNamespace", 41, 2, KStr, Implicit(Str([]))),
      Property("phpMetadataNamespace", 44, 2, KStr, Implicit(Str([]))),
      Property("rubyPackage", 45, 2, KStr, Implicit(Str([]))),
      Property("features", 50, 2, KMsg(FEATURE_SET), Explicit),
      Property("uninterpretedOption", 999, 2, KMsg(UNINTERPRETED_OPTION), Repeated)
    ]
  }

  function MessageOptionsProperties(): seq<Property> {
    [
      Property("messageSetWireFormat", 1, 0, KBool, Implicit(Bool(false))),
      Property("noStandardDescriptorAccessor", 2, 0, KBool, Implicit(Bool(false))),
      Property("deprecated", 3, 0, KBool, Implicit(Bool(false))),
      Property("mapEntry", 7, 0, KBool, Implicit(Bool(false))),
      Property("deprecatedLegacyJsonFieldConflicts", 11, 0, KBool, Implicit(Bool(false))),
      Property("features", 12, 2, KMsg(FEATURE_SET), Explicit),
      Property("uninterpretedOption", 999, 2, KMsg(UNINTERPRETED_OPTION), Repeated)
    ]
  }

  function FieldOptionsProperties(): seq<Property> {
    [
      Property("ctype", 1, 0, KInt32, Implicit(Int(0))),
      Property("packed", 2, 0, KBool, Implicit(Bool(false))),
      Property("jstype", 6, 0, KInt32, Implicit(Int(0))),
      Property("lazy", 5, 0, KBool, Implicit(Bool(false))),
      Property("unverifiedLazy", 15, 0, KBool, Implicit(Bool(false))),
      Property("deprecated", 3, 0, KBool, Implicit(Bool(false))),
      Property("weak", 10, 0, KBool, Implicit(Bool(false))),
      Property("debugRedact", 16, 0, KBool, Implicit(Bool(false))),
      Property("retention", 17, 0, KInt32, Implicit(Int(0))),
      Property("targets", 19, 0, KInt32, Repeated),
      Property("editionDefaults", 20, 2, KMsg(FIELD_OPTIONS_EDITION_DEFAULT), Repeated),
      Property("features", 21, 2, KMsg(FEATURE_SET), Explicit),
      Property("featureSupport", 22, 2, KMsg(FIELD_OPTIONS_FEATURE_SUPPORT), Explicit),
      Property("uninterpretedOption", 999, 2, KMsg(UNINTERPRETED_OPTION), Repeated)
    ]
  }

  function FieldOptions_EditionDefaultProperties(): seq<Property> {
    [
      Property("edition", 3, 0, KInt32, Implicit(Int(0))),
      Property("value", 2, 2, KStr, Implicit(Str([])))
    ]
  }

  function FieldOptions_FeatureSupportProperties(): seq<Property> {
    [
      Property("editionIntroduced", 1, 0, KInt32, Implicit(Int(0))),
      Property("editionDeprecated", 2, 0, KInt32, Implicit(Int(0))),
      Property("deprecationWarning", 3, 2, KStr, Implicit(Str([]))),
      Property("editionRemoved", 4, 0, KInt32, Implicit(Int(0)))
    ]
  }

  function OneofOptionsProperties(): seq<Property> {
    [
      Property("features", 1, 2, KMsg(FEATURE_SET), Explicit),
      Property("uninterpretedOption", 999, 2, KMsg(UNINTERPRETED_OPTION), Repeated)
    ]
  }

  function EnumOptionsProperties(): seq<Property> {
    [
      Property("allowAlias", 2, 0, KBool, Implicit(Bool(false))),
      Property("deprecated", 3, 0, KBool, Implicit(Bool(false))),
      Property("deprecatedLegacyJsonFieldConflicts", 6, 0, KBool, Implicit(Bool(false))),
      Property("features", 7, 2, KMsg(FEATURE_SET), Explicit),
      Property("uninterpretedOption", 999, 2, KMsg(UNINTERPRETED_OPTION), Repeated)
    ]
  }

  function EnumValueOptionsProperties(): seq<Property> {
    [
      Property("deprecated", 1, 0, KBool, Implicit(Bool(false))),
      Property("features", 2, 2, KMsg(FEATURE_SET), Explicit),
      Property("debugRedact", 3, 0, KBool, Implicit(Bool(false))),
      Property("featureSupport", 4, 2, KMsg(FIELD_OPTIONS_FEATURE_SUPPORT), Explicit),
      Property("uninterpretedOption", 999, 2, KMsg(UNINTERPRETED_OPTION), Repeated)
    ]
  }

  function ServiceOptionsProperties(): seq<Property> {
    [
      Property("features", 34, 2, KMsg(FEATURE_SET), Explicit),
      Property("deprecated", 33, 0, KBool, Implicit(Bool(false))),
      Property("uninterpretedOption", 999, 2, KMsg(UNINTERPRETED_OPTION), Repeated)
    ]
  }

  function MethodOptionsProperties(): seq<Property> {
    [
      Property("deprecated", 33, 0, KBool, Implicit(Bool(false))),
      Property("idempotencyLevel", 34, 0, KInt32, Implicit(Int(0))),
      Property("features", 35, 2, KMsg(FEATURE_SET), Explicit),
      Property("uninterpretedOption", 999, 2, KMsg(UNINTERPRETED_OPTION), Repeated)
    ]
  }

  function UninterpretedOptionProperties(): seq<Property> {
    [
      Property("name", 2, 2, KMsg(UNINTERPRETED_OPTION_NAME_PART), Repeated),
      Property("identifierValue", 3, 2, KStr, Implicit(Str([]))),
      Property("positiveIntValue", 4, 0, KUint64, Implicit(Int(0))),
      Property("negativeIntValue", 5, 0, KInt64, Implicit(Int(0))),
      Property("doubleValue", 6, 1, KDouble, Implicit(Fixed(PLUS_ZERO))),
      Property("stringValue", 7, 2, KStr, Implicit(Str([]))),
      Property("aggregateValue", 8, 2, KStr, Implicit(Str([])))
    ]
  }

  function UninterpretedOption_NamePartProperties(): seq<Property> {
    [
      Property("namePart", 1, 2, KStr, Implicit(Str([]))),
      Property("isExtension", 2, 0, KBool, Implicit(Bool(false)))
    ]
  }

  function FeatureSetProperties(): seq<Property> {
    [
      Property("fieldPresence", 1, 0, KInt32, Implicit(Int(0))),
      Property("enumType", 2, 0, KInt32, Implicit(Int(0))),
      Property("repeatedFieldEncoding", 3, 0, KInt32, Implicit(Int(0))),
      Property("utf8Validation", 4, 0, KInt32, Implicit(Int(0))),
      Property("messageEncoding", 5, 0, KInt32, Implicit(Int(0))),
      Property("jsonFormat", 6, 0, KInt32, Implicit(Int(0))),
      Property("enforceNamingStyle", 7, 0, KInt32, Implicit(Int(0)))
    ]
  }

  function FeatureSetDefaultsProperties(): seq<Property> {
    [
      Property("defaults", 1, 2, KMsg(FEATURE_SET_DEFAULTS_FEATURE_SET_EDITION_DEFAULT), Repeated),
      Property("minimumEdition", 4, 0, KInt32, Implicit(Int(0))),
      Property("maximumEdition", 5, 0, KInt32, Implicit(Int(0)))
    ]
  }

  function FeatureSetDefaults_FeatureSetEditionDefaultProperties(): seq<Property> {
    [
      Property("edition", 3, 0, KInt32, Implicit(Int(0))),
      Property("overridableFeatures", 4, 2, KMsg(FEATURE_SET), Explicit),
      Property("fixedFeatures", 5, 2, KMsg(FEATURE_SET), Explicit)
    ]
  }

  function SourceCodeInfoProperties(): seq<Property> {
    [
      Property("location", 1, 2, KMsg(SOURCE_CODE_INFO_LOCATION), Repeated)
    ]
  }

  function SourceCodeInfo_LocationProperties(): seq<Property> {
    [
      Property("path", 1, 0, KInt32, Packed),
      Property("span", 2, 0, KInt32, Packed),
      Property("leadingComments", 3, 2, KStr, Implicit(Str([]))),
      Property("trailingComments", 4, 2, KStr, Implicit(Str([]))),
      Property("leadingDetachedComments", 6, 2, KStr, Repeated)
    ]
  }

  function GeneratedCodeInfoProperties(): seq<Property> {
    [
      Property("annotation", 1, 2, KMsg(GENERATED_CODE_INFO_ANNOTATION), Repeated)
    ]
  }

  function GeneratedCodeInfo_AnnotationProperties(): seq<Property> {
    [
      Property("path", 1, 0, KInt32, Packed),
      Property("sourceFile", 2, 2, KStr, Implicit(Str([]))),
      Property("begin", 3, 0, KInt32, Implicit(Int(0))),
      Property("end", 4, 0, KInt32, Implicit(Int(0))),
      Property("semantic", 5, 0, KInt32, Implicit(Int(0)))
    ]
  }

  lemma FileDescriptorSetDescribed()
    ensures Described(FileDescriptorSetSchema(), FileDescriptorSetProperties())
  {
  }

  lemma FileDescriptorProtoRows()
    ensures FileDescriptorProtoSchema().plan == Rows(FileDescriptorProtoProperties())
  {
  }

  lemma FileDescriptorProtoTags()
    ensures var s := FileDescriptorProtoSchema(); forall tag | tag in s.arms :: TagFits(s.plan, tag, s.arms[tag])
  {
  }

  lemma FileDescriptorProtoLists()
    ensures var s, ps := FileDescriptorProtoSchema(), FileDescriptorProtoProperties(); forall i | 0 <= i < |ps| :: ReadsBoth(s.arms, ps[i], i)
  {
  }

  lemma FileDescriptorProtoDescribed()
    ensures Described(FileDescriptorProtoSchema(), FileDescriptorProtoProperties())
  {
    hide FileDescriptorProtoSchema, FileDescriptorProtoProperties, TagFits, ReadsBoth;
    FileDescriptorProtoRows();
    FileDescriptorProtoTags();
    FileDescriptorProtoLists();
  }

  lemma DescriptorProtoRows()
    ensures DescriptorProtoSchema().plan == Rows(DescriptorProtoProperties())
  {
  }

  lemma DescriptorProtoTags()
    ensures var s := DescriptorProtoSchema(); forall tag | tag in s.arms :: TagFits(s.plan, tag, s.arms[tag])
  {
  }

  lemma DescriptorProtoLists()
    ensures var s, ps := DescriptorProtoSchema(), DescriptorProtoProperties(); forall i | 0 <= i < |ps| :: ReadsBoth(s.arms, ps[i], i)
  {
  }

  lemma DescriptorProtoDescribed()
    ensures Described(DescriptorProtoSchema(), DescriptorProtoProperties())
  {
    hide DescriptorProtoSchema, DescriptorProtoProperties, TagFits, ReadsBoth;
    DescriptorProtoRows();
    DescriptorProtoTags();
    DescriptorProtoLists();
  }

  lemma DescriptorProto_ExtensionRangeDescribed()
    ensures Described(DescriptorProto_ExtensionRangeSchema(), DescriptorProto_ExtensionRangeProperties())
  {
  }

  lemma DescriptorProto_ReservedRangeDescribed()
    ensures Described(DescriptorProto_ReservedRangeSchema(), DescriptorProto_ReservedRangeProperties())
  {
  }

  lemma ExtensionRangeOptionsDescribed()
    ensures Described(ExtensionRangeOptionsSchema(), ExtensionRangeOptionsProperties())
  {
  }

  lemma ExtensionRangeOptions_DeclarationDescribed()
    ensures Described(ExtensionRangeOptions_DeclarationSchema(), ExtensionRangeOptions_DeclarationProperties())
  {
  }

  lemma FieldDescriptorProtoRows()
    ensures FieldDescriptorProtoSchema().plan == Rows(FieldDescriptorProtoProperties())
  {
  }

  lemma FieldDescriptorProtoTags()
    ensures var s := FieldDescriptorProtoSchema(); forall tag | tag in s.arms :: TagFits(s.plan, tag, s.arms[tag])
  {
  }

  lemma FieldDescriptorProtoLists()
    ensures var s, ps := FieldDescriptorProtoSchema(), FieldDescriptorProtoProperties(); forall i | 0 <= i < |ps| :: ReadsBoth(s.arms, ps[i], i)
  {
  }

  lemma FieldDescriptorProtoDescribed()
    ensures Described(FieldDescriptorProtoSchema(), FieldDescriptorProtoProperties())
  {
    hide FieldDescriptorProtoSchema, FieldDescriptorProtoProperties, TagFits, ReadsBoth;
    FieldDescriptorProtoRows();
    FieldDescriptorProtoTags();
    FieldDescriptorProtoLists();
  }

  lemma OneofDescriptorProtoDescribed()
    ensures Described(OneofDescriptorProtoSchema(), OneofDescriptorProtoProperties())
  {
  }

  lemma EnumDescriptorProtoDescribed()
    ensures Described(EnumDescriptorProtoSchema(), EnumDescriptorProtoProperties())
  {
  }

  lemma EnumDescriptorProto_EnumReservedRangeDescribed()
    ensures Described(EnumDescriptorProto_EnumReservedRangeSchema(), EnumDescriptorProto_EnumReservedRangeProperties())
  {
  }

  lemma EnumValueDescriptorProtoDescribed()
    ensures Described(EnumValueDescriptorProtoSchema(), EnumValueDescriptorProtoProperties())
  {
  }

  lemma ServiceDescriptorProtoDescribed()
    ensures Described(ServiceDescriptorProtoSchema(), ServiceDescriptorProtoProperties())
  {
  }

  lemma MethodDescriptorProtoDescribed()
    ensures Described(MethodDescriptorProtoSchema(), MethodDescriptorProtoProperties())
  {
  }

  lemma FileOptionsRows()
    ensures FileOptionsSchema().plan == Rows(FileOptionsProperties())
  {
  }

  lemma FileOptionsTags()
    ensures var s := FileOptionsSchema(); forall tag | tag in s.arms :: TagFits(s.plan, tag, s.arms[tag])
  {
  }

  lemma FileOptionsLists()
    ensures var s, ps := FileOptionsSchema(), FileOptionsProperties(); forall i | 0 <= i < |ps| :: ReadsBoth(s.arms, ps[i], i)
  {
  }

  lemma FileOptionsDescribed()
    ensures Described(FileOptionsSchema(), FileOptionsProperties())
  {
    hide FileOptionsSchema, FileOptionsProperties, TagFits, ReadsBoth;
    FileOptionsRows();
    FileOptionsTags();
    FileOptionsLists();
  }

  lemma MessageOptionsRows()
    ensures MessageOptionsSchema().plan == Rows(MessageOptionsProperties())
  {
  }

  lemma MessageOptionsTags()
    ensures var s := MessageOptionsSchema(); forall tag | tag in s.arms :: TagFits(s.plan, tag, s.arms[tag])
  {
  }

  lemma MessageOptionsLists()
    ensures var s, ps := MessageOptionsSchema(), MessageOptionsProperties(); forall i | 0 <= i < |ps| :: ReadsBoth(s.arms, ps[i], i)
  {
  }

  lemma MessageOptionsDescribed()
    ensures Described(MessageOptionsSchema(), MessageOptionsProperties())
  {
    hide MessageOptionsSchema, MessageOptionsProperties, TagFits, ReadsBoth;
    MessageOptionsRows();
    MessageOptionsTags();
    MessageOptionsLists();
  }

  lemma FieldOptionsRows()
    ensures FieldOptionsSchema().plan == Rows(FieldOptionsProperties())
  {
  }

  lemma FieldOptionsTags()
    ensures var s := FieldOptionsSchema(); forall tag | tag in s.arms :: TagFits(s.plan, tag, s.arms[tag])
  {
  }

  lemma FieldOptionsLists()
    ensures var s, ps := FieldOptionsSchema(), FieldOptionsProperties(); forall i | 0 <= i < |ps| :: ReadsBoth(s.arms, ps[i], i)
  {
  }

  lemma FieldOptionsDescribed()
    ensures Described(FieldOptionsSchema(), FieldOptionsProperties())
  {
    hide FieldOptionsSchema, FieldOptionsProperties, TagFits, ReadsBoth;
    FieldOptionsRows();
    FieldOptionsTags();
    FieldOptionsLists();
  }

  lemma FieldOptions_EditionDefaultDescribed()
    ensures Described(FieldOptions_EditionDefaultSchema(), FieldOptions_EditionDefaultProperties())
  {
  }

  lemma FieldOptions_FeatureSupportDescribed()
    ensures Described(FieldOptions_FeatureSupportSchema(), FieldOptions_FeatureSupportProperties())
  {
  }

  lemma OneofOptionsDescribed()
    ensures Described(OneofOptionsSchema(), OneofOptionsProperties())
  {
  }

  lemma EnumOptionsDescribed()
    ensures Described(EnumOptionsSchema(), EnumOptionsProperties())
  {
  }

  lemma EnumValueOptionsDescribed()
    ensures Described(EnumValueOptionsSchema(), EnumValueOptionsProperties())
  {
  }

  lemma ServiceOptionsDescribed()
    ensures Described(ServiceOptionsSchema(), ServiceOptionsProperties())
  {
  }

  lemma MethodOptionsDescribed()
    ensures Described(MethodOptionsSchema(), MethodOptionsProperties())
  {
  }

  lemma UninterpretedOptionRows()
    ensures UninterpretedOptionSchema().plan == Rows(UninterpretedOptionProperties())
  {
  }

  lemma UninterpretedOptionTags()
    ensures var s := UninterpretedOptionSchema(); forall tag | tag in s.arms :: TagFits(s.plan, tag, s.arms[tag])
  {
  }

  lemma UninterpretedOptionLists()
    ensures var s, ps := UninterpretedOptionSchema(), UninterpretedOptionProperties(); forall i | 0 <= i < |ps| :: ReadsBoth(s.arms, ps[i], i)
  {
  }

  lemma UninterpretedOptionDescribed()
    ensures Described(UninterpretedOptionSchema(), UninterpretedOptionProperties())
  {
    hide UninterpretedOptionSchema, UninterpretedOptionProperties, TagFits, ReadsBoth;
    UninterpretedOptionRows();
    UninterpretedOptionTags();
    UninterpretedOptionLists();
  }

  lemma UninterpretedOption_NamePartDescribed()
    ensures Described(UninterpretedOption_NamePartSchema(), UninterpretedOption_NamePartProperties())
  {
  }

  lemma FeatureSetRows()
    ensures FeatureSetSchema().plan == Rows(FeatureSetProperties())
  {
  }

  lemma FeatureSetTags()
    ensures var s := FeatureSetSchema(); forall tag | tag in s.arms :: TagFits(s.plan, tag, s.arms[tag])
  {
  }

  lemma FeatureSetLists()
    ensures var s, ps := FeatureSetSchema(), FeatureSetProperties(); forall i | 0 <= i < |ps| :: ReadsBoth(s.arms, ps[i], i)
  {
  }

  lemma FeatureSetDescribed()
    ensures Described(FeatureSetSchema(), FeatureSetProperties())
  {
    hide FeatureSetSchema, FeatureSetProperties, TagFits, ReadsBoth;
    FeatureSetRows();
    FeatureSetTags();
    FeatureSetLists();
  }

  lemma FeatureSetDefaultsDescribed()
    ensures Described(FeatureSetDefaultsSchema(), FeatureSetDefaultsProperties())
  {
  }

  lemma FeatureSetDefaults_FeatureSetEditionDefaultDescribed()
    ensures Described(FeatureSetDefaults_FeatureSetEditionDefaultSchema(), FeatureSetDefaults_FeatureSetEditionDefaultProperties())
  {
  }

  lemma SourceCodeInfoDescribed()
    ensures Described(SourceCodeInfoSchema(), SourceCodeInfoProperties())
  {
  }

  lemma SourceCodeInfo_LocationRows()
    ensures SourceCodeInfo_LocationSchema().plan == Rows(SourceCodeInfo_LocationProperties())
  {
  }

  lemma SourceCodeInfo_LocationTags()
    ensures var s := SourceCodeInfo_LocationSchema(); forall tag | tag in s.arms :: TagFits(s.plan, tag, s.arms[tag])
  {
  }

  lemma SourceCodeInfo_LocationLists()
    ensures var s, ps := SourceCodeInfo_LocationSchema(), SourceCodeInfo_LocationProperties(); forall i | 0 <= i < |ps| :: ReadsBoth(s.arms, ps[i], i)
  {
  }

  lemma SourceCodeInfo_LocationDescribed()
    ensures Described(SourceCodeInfo_LocationSchema(), SourceCodeInfo_LocationProperties())
  {
    hide SourceCodeInfo_LocationSchema, SourceCodeInfo_LocationProperties, TagFits, ReadsBoth;
    SourceCodeInfo_LocationRows();
    SourceCodeInfo_LocationTags();
    SourceCodeInfo_LocationLists();
  }

  lemma GeneratedCodeInfoDescribed()
    ensures Described(GeneratedCodeInfoSchema(), GeneratedCodeInfoProperties())
  {
  }

  lemma GeneratedCodeInfo_AnnotationRows()
    ensures GeneratedCodeInfo_AnnotationSchema().plan == Rows(GeneratedCodeInfo_AnnotationProperties())
  {
  }

  lemma GeneratedCodeInfo_AnnotationTags()
    ensures var s := GeneratedCodeInfo_AnnotationSchema(); forall tag | tag in s.arms :: TagFits(s.plan, tag, s.arms[tag])
  {
  }

  lemma GeneratedCodeInfo_AnnotationLists()
    ensures var s, ps := GeneratedCodeInfo_AnnotationSchema(), GeneratedCodeInfo_AnnotationProperties(); forall i | 0 <= i < |ps| :: ReadsBoth(s.arms, ps[i], i)
  {
  }

  lemma GeneratedCodeInfo_AnnotationDescribed()
    ensures Described(GeneratedCodeInfo_AnnotationSchema(), GeneratedCodeInfo_AnnotationProperties())
  {
    hide GeneratedCodeInfo_AnnotationSchema, GeneratedCodeInfo_AnnotationProperties, TagFits, ReadsBoth;
    GeneratedCodeInfo_AnnotationRows();
    GeneratedCodeInfo_AnnotationTags();
    GeneratedCodeInfo_AnnotationLists();
  }

  /** The properties of each message of the file. */
  function PropertiesOf(message: nat): seq<Property> {
    if message == FILE_DESCRIPTOR_SET then FileDescriptorSetProperties()
    else if message == FILE_DESCRIPTOR_PROTO then FileDescriptorProtoProperties()
    else if message == DESCRIPTOR_PROTO then DescriptorProtoProperties()
    else if message == DESCRIPTOR_PROTO_EXTENSION_RANGE then DescriptorProto_ExtensionRangeProperties()
    else if message == DESCRIPTOR_PROTO_RESERVED_RANGE then DescriptorProto_ReservedRangeProperties()
    else if message == EXTENSION_RANGE_OPTIONS then ExtensionRangeOptionsProperties()
    else if message == EXTENSION_RANGE_OPTIONS_DECLARATION then ExtensionRangeOptions_DeclarationProperties()
    else if message == FIELD_DESCRIPTOR_PROTO then FieldDescriptorProtoProperties()
    else if message == ONEOF_DESCRIPTOR_PROTO then OneofDescriptorProtoProperties()
    else if message == ENUM_DESCRIPTOR_PROTO then EnumDescriptorProtoProperties()
    else if message == ENUM_DESCRIPTOR_PROTO_ENUM_RESERVED_RANGE then EnumDescriptorProto_EnumReservedRangeProperties()
    else if message == ENUM_VALUE_DESCRIPTOR_PROTO then EnumValueDescriptorProtoProperties()
    else if message == SERVICE_DESCRIPTOR_PROTO then ServiceDescriptorProtoProperties()
    else if message == METHOD_DESCRIPTOR_PROTO then MethodDescriptorProtoProperties()
    else if message == FILE_OPTIONS then FileOptionsProperties()
    else if message == MESSAGE_OPTIONS then MessageOptionsProperties()
    else if message == FIELD_OPTIONS then FieldOptionsProperties()
    else if message == FIELD_OPTIONS_EDITION_DEFAULT then FieldOptions_EditionDefaultProperties()
    else if message == FIELD_OPTIONS_FEATURE_SUPPORT then FieldOptions_FeatureSupportProperties()
    else if message == ONEOF_OPTIONS then OneofOptionsProperties()
    else if message == ENUM_OPTIONS then EnumOptionsProperties()
    else if message == ENUM_VALUE_OPTIONS then EnumValueOptionsProperties()
    else if message == SERVICE_OPTIONS then ServiceOptionsProperties()
    else if message == METHOD_OPTIONS then MethodOptionsProperties()
    else if message == UNINTERPRETED_OPTION then UninterpretedOptionProperties()
    else if message == UNINTERPRETED_OPTION_NAME_PART then UninterpretedOption_NamePartProperties()
    else if message == FEATURE_SET then FeatureSetProperties()
    else if message == FEATURE_SET_DEFAULTS then FeatureSetDefaultsProperties()
    else if message == FEATURE_SET_DEFAULTS_FEATURE_SET_EDITION_DEFAULT then FeatureSetDefaults_FeatureSetEditionDefaultProperties()
    else if message == SOURCE_CODE_INFO then SourceCodeInfoProperties()
    else if message == SOURCE_CODE_INFO_LOCATION then SourceCodeInfo_LocationProperties()
    else if message == GENERATED_CODE_INFO then GeneratedCodeInfoProperties()
    else if message == GENERATED_CODE_INFO_ANNOTATION then GeneratedCodeInfo_AnnotationProperties()
    else []
  }

  lemma TheGrammar()
    ensures DescriptorGrammar() == DescriptorTables()
  {
    hide DescriptorTables, GrammarOk;
  }

  lemma {:induction false} TablesDescribed(message: nat)
    requires message < |DescriptorTables()|
    ensures Described(DescriptorTables()[message], PropertiesOf(message))
  {
    hide GrammarOk, Described, FileDescriptorSetSchema, FileDescriptorProtoSchema, DescriptorProtoSchema,
      DescriptorProto_ExtensionRangeSchema, DescriptorProto_ReservedRangeSchema, ExtensionRangeOptionsSchema,
      ExtensionRangeOptions_DeclarationSchema, FieldDescriptorProtoSchema, OneofDescriptorProtoSchema,
      EnumDescriptorProtoSchema, EnumDescriptorProto_EnumReservedRangeSchema, EnumValueDescriptorProtoSchema,
      ServiceDescriptorProtoSchema, MethodDescriptorProtoSchema, FileOptionsSchema, MessageOptionsSchema,
      FieldOptionsSchema, FieldOptions_EditionDefaultSchema, FieldOptions_FeatureSupportSchema, OneofOptionsSchema,
      EnumOptionsSchema, EnumValueOptionsSchema, ServiceOptionsSchema, MethodOptionsSchema,
      UninterpretedOptionSchema, UninterpretedOption_NamePartSchema, FeatureSetSchema, FeatureSetDefaultsSchema,
      FeatureSetDefaults_FeatureSetEditionDefaultSchema, SourceCodeInfoSchema, SourceCodeInfo_LocationSchema,
      GeneratedCodeInfoSchema, GeneratedCodeInfo_AnnotationSchema, FileDescriptorSetProperties,
      FileDescriptorProtoProperties, DescriptorProtoProperties, DescriptorProto_ExtensionRangeProperties,
      DescriptorProto_ReservedRangeProperties, ExtensionRangeOptionsProperties,
      ExtensionRangeOptions_DeclarationProperties, FieldDescriptorProtoProperties, OneofDescriptorProtoProperties,
      EnumDescriptorProtoProperties, EnumDescriptorProto_EnumReservedRangeProperties,
      EnumValueDescriptorProtoProperties, ServiceDescriptorProtoProperties, MethodDescriptorProtoProperties,
      FileOptionsProperties, MessageOptionsProperties, FieldOptionsProperties,
      FieldOptions_EditionDefaultProperties, FieldOptions_FeatureSupportProperties, OneofOptionsProperties,
      EnumOptionsProperties, EnumValueOptionsProperties, ServiceOptionsProperties, MethodOptionsProperties,
      UninterpretedOptionProperties, UninterpretedOption_NamePartProperties, FeatureSetProperties,
      FeatureSetDefaultsProperties, FeatureSetDefaults_FeatureSetEditionDefaultProperties, SourceCodeInfoProperties,
      SourceCodeInfo_LocationProperties, GeneratedCodeInfoProperties, GeneratedCodeInfo_AnnotationProperties;
    FileDescriptorSetDescribed();
    FileDescriptorProtoDescribed();
    DescriptorProtoDescribed();
    DescriptorProto_ExtensionRangeDescribed();
    DescriptorProto_ReservedRangeDescribed();
    ExtensionRangeOptionsDescribed();
    ExtensionRangeOptions_DeclarationDescribed();
    FieldDescriptorProtoDescribed();
    OneofDescriptorProtoDescribed();
    EnumDescriptorProtoDescribed();
    EnumDescriptorProto_EnumReservedRangeDescribed();
    EnumValueDescriptorProtoDescribed();
    ServiceDescriptorProtoDescribed();
    MethodDescriptorProtoDescribed();
    FileOptionsDescribed();
    MessageOptionsDescribed();
    FieldOptionsDescribed();
    FieldOptions_EditionDefaultDescribed();
    FieldOptions_FeatureSupportDescribed();
    OneofOptionsDescribed();
    EnumOptionsDescribed();
    EnumValueOptionsDescribed();
    ServiceOptionsDescribed();
    MethodOptionsDescribed();
    UninterpretedOptionDescribed();
    UninterpretedOption_NamePartDescribed();
    FeatureSetDescribed();
    FeatureSetDefaultsDescribed();
    FeatureSetDefaults_FeatureSetEditionDefaultDescribed();
    SourceCodeInfoDescribed();
    SourceCodeInfo_LocationDescribed();
    GeneratedCodeInfoDescribed();
    GeneratedCodeInfo_AnnotationDescribed();
  }

  // ---------------------------------------------------------------- what the properties do

  /** Every property of every message of the file is read and written by its own number, and nothing else is. */
  lemma {:induction false} MessagesHaveProperties(message: nat)
    requires message < |DescriptorGrammar()|
    ensures HasProperties(DescriptorGrammar(), message, PropertiesOf(message))
  {
    TheGrammar();
    TablesDescribed(message);
    hide *;
    TableHasProperties(DescriptorGrammar(), message, PropertiesOf(message));
  }

  lemma {:induction false} NumbersTwoAndSix(g: Grammar, t: nat, ps: seq<Property>, s: nat, f: Msg)
    requires GrammarOk(g) && t < |g| && HasProperties(g, t, ps) && 2 < |ps| && s < |g|
    requires ps[1] == Property("field", 2, 2, KMsg(s), Repeated) && ps[2] == Property("extension", 6, 2, KMsg(s), Repeated)
    requires ValidMsg(g, s, f) && |Encode(g, s, f)| < TWO_32
    ensures |f.slots| == |g[s].plan|
    ensures var payload, one := LengthPrefixed(Encode(g, s, f)), Slot([Sub(Norm(g, s, f))]);
      && Decode(g, t, [18] + payload, 0, |payload| + 1) == Got(Msg(Initials(ps).slots[1 := one]), |payload| + 1)
      && Decode(g, t, [50] + payload, 0, |payload| + 1) == Got(Msg(Initials(ps).slots[2 := one]), |payload| + 1)
  {
    hide *;
    SubAlone(g, t, ps, 1, 18, s, f);
    SubAlone(g, t, ps, 2, 50, s, f);
  }

  /** Two properties of one type byte for byte: 18 introduces a field of a message descriptor, 50 an extension. */
  lemma {:induction false} FieldAndExtension(f: Msg)
    requires ValidMsg(DescriptorGrammar(), FIELD_DESCRIPTOR_PROTO, f)
    requires |Encode(DescriptorGrammar(), FIELD_DESCRIPTOR_PROTO, f)| < TWO_32
    ensures |f.slots| == |DescriptorGrammar()[FIELD_DESCRIPTOR_PROTO].plan|
    ensures var g, t := DescriptorGrammar(), DESCRIPTOR_PROTO;
      var payload := LengthPrefixed(Encode(g, FIELD_DESCRIPTOR_PROTO, f));
      var one, none := Slot([Sub(Norm(g, FIELD_DESCRIPTOR_PROTO, f))]), Slot([]);
      && Decode(g, t, [18] + payload, 0, |payload| + 1)
         == Got(Msg([Slot([Str([])]), one, none, none, none, none, none, none, none, none]), |payload| + 1)
      && Decode(g, t, [50] + payload, 0, |payload| + 1)
         == Got(Msg([Slot([Str([])]), none, one, none, none, none, none, none, none, none]), |payload| + 1)
  {
    hide *;
    TheirPlaces();
    HasItsSlots(DescriptorGrammar(), FIELD_DESCRIPTOR_PROTO, f);
    MessagesHaveProperties(DESCRIPTOR_PROTO);
    DescriptorInitials(Slot([Sub(Norm(DescriptorGrammar(), FIELD_DESCRIPTOR_PROTO, f))]));
    NumbersTwoAndSix(DescriptorGrammar(), DESCRIPTOR_PROTO, DescriptorProtoProperties(), FIELD_DESCRIPTOR_PROTO, f);
  }

  lemma {:induction false} HasItsSlots(g: Grammar, t: nat, m: Msg)
    requires GrammarOk(g) && t < |g| && ValidMsg(g, t, m)
    ensures |m.slots| == |g[t].plan|
  {
  }

  lemma TheirPlaces()
    ensures DESCRIPTOR_PROTO == 2 && FIELD_DESCRIPTOR_PROTO == 7
  {
  }

  lemma DescriptorInitials(one: Slot)
    ensures var ps, none, k := DescriptorProtoProperties(), Slot([]), KMsg(FIELD_DESCRIPTOR_PROTO);
      && PropertiesOf(DESCRIPTOR_PROTO) == ps
      && |ps| == 10 == |Initials(ps).slots|
      && ps[1] == Property("field", 2, 2, k, Repeated) && ps[2] == Property("extension", 6, 2, k, Repeated)
      && Initials(ps).slots[1 := one] == [Slot([Str([])]), one, none, none, none, none, none, none, none, none]
      && Initials(ps).slots[2 := one] == [Slot([Str([])]), none, one, none, none, none, none, none, none, none]
  {
  }
}
