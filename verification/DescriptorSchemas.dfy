/**
 The encode rows, decode arms and base values of all 33 messages of `google/protobuf/descriptor.ts`.
 */
module DescriptorSchemas {
  import opened Codec

  // The messages of the file, by their place in the grammar.
  const FILE_DESCRIPTOR_SET: nat := 0
  const FILE_DESCRIPTOR_PROTO: nat := 1
  const DESCRIPTOR_PROTO: nat := 2
  const DESCRIPTOR_PROTO_EXTENSION_RANGE: nat := 3
  const DESCRIPTOR_PROTO_RESERVED_RANGE: nat := 4
  const EXTENSION_RANGE_OPTIONS: nat := 5
  const EXTENSION_RANGE_OPTIONS_DECLARATION: nat := 6
  const FIELD_DESCRIPTOR_PROTO: nat := 7
  const ONEOF_DESCRIPTOR_PROTO: nat := 8
  const ENUM_DESCRIPTOR_PROTO: nat := 9
  const ENUM_DESCRIPTOR_PROTO_ENUM_RESERVED_RANGE: nat := 10
  const ENUM_VALUE_DESCRIPTOR_PROTO: nat := 11
  const SERVICE_DESCRIPTOR_PROTO: nat := 12
  const METHOD_DESCRIPTOR_PROTO: nat := 13
  const FILE_OPTIONS: nat := 14
  const MESSAGE_OPTIONS: nat := 15
  const FIELD_OPTIONS: nat := 16
  const FIELD_OPTIONS_EDITION_DEFAULT: nat := 17
  const FIELD_OPTIONS_FEATURE_SUPPORT: nat := 18
  const ONEOF_OPTIONS: nat := 19
  const ENUM_OPTIONS: nat := 20
  const ENUM_VALUE_OPTIONS: nat := 21
  const SERVICE_OPTIONS: nat := 22
  const METHOD_OPTIONS: nat := 23
  const UNINTERPRETED_OPTION: nat := 24
  const UNINTERPRETED_OPTION_NAME_PART: nat := 25
  const FEATURE_SET: nat := 26
  const FEATURE_SET_DEFAULTS: nat := 27
  const FEATURE_SET_DEFAULTS_FEATURE_SET_EDITION_DEFAULT: nat := 28
  const SOURCE_CODE_INFO: nat := 29
  const SOURCE_CODE_INFO_LOCATION: nat := 30
  const GENERATED_CODE_INFO: nat := 31
  const GENERATED_CODE_INFO_ANNOTATION: nat := 32

  function FileDescriptorSetSchema(): Schema {
    Schema(
      Msg([Slot([])]),
      [
        Row(10, KMsg(FILE_DESCRIPTOR_PROTO), Repeated)  // file
      ],
      map[
        10 := Arm(0, KMsg(FILE_DESCRIPTOR_PROTO), Push)  // file
      ])
  }

  function FileDescriptorProtoSchema(): Schema {
    Schema(
      Msg([Slot([Str([])]), Slot([Str([])]), Slot([]), Slot([]), Slot([]), Slot([]), Slot([]), Slot([]), Slot([]), Slot([]), Slot([]), Slot([Str([])]), Slot([Int(0)])]),
      [
        Row(10, KStr, Implicit(Str([]))),  // name
        Row(18, KStr, Implicit(Str([]))),  // package
        Row(26, KStr, Repeated),  // dependency
        Row(80, KInt32, Repeated),  // publicDependency
        Row(88, KInt32, Repeated),  // weakDependency
        Row(34, KMsg(DESCRIPTOR_PROTO), Repeated),  // messageType
        Row(42, KMsg(ENUM_DESCRIPTOR_PROTO), Repeated),  // enumType
        Row(50, KMsg(SERVICE_DESCRIPTOR_PROTO), Repeated),  // service
        Row(58, KMsg(FIELD_DESCRIPTOR_PROTO), Repeated),  // extension
        Row(66, KMsg(FILE_OPTIONS), Explicit),  // options
        Row(74, KMsg(SOURCE_CODE_INFO), Explicit),  // sourceCodeInfo
        Row(98, KStr, Implicit(Str([]))),  // syntax
        Row(112, KInt32, Implicit(Int(0)))  // edition
      ],
      map[
        10 := Arm(0, KStr, Assign),  // name
        18 := Arm(1, KStr, Assign),  // package
        26 := Arm(2, KStr, Push),  // dependency
        80 := Arm(3, KInt32, Push),  // publicDependency
        82 := Arm(3, KInt32, PushPacked),  // publicDependency
        88 := Arm(4, KInt32, Push),  // weakDependency
        90 := Arm(4, KInt32, PushPacked),  // weakDependency
        34 := Arm(5, KMsg(DESCRIPTOR_PROTO), Push),  // messageType
        42 := Arm(6, KMsg(ENUM_DESCRIPTOR_PROTO), Push),  // enumType
        50 := Arm(7, KMsg(SERVICE_DESCRIPTOR_PROTO), Push),  // service
        58 := Arm(8, KMsg(FIELD_DESCRIPTOR_PROTO), Push),  // extension
        66 := Arm(9, KMsg(FILE_OPTIONS), Assign),  // options
        74 := Arm(10, KMsg(SOURCE_CODE_INFO), Assign),  // sourceCodeInfo
        98 := Arm(11, KStr, Assign),  // syntax
        112 := Arm(12, KInt32, Assign)  // edition
      ])
  }

  function DescriptorProtoSchema(): Schema {
    Schema(
      Msg([Slot([Str([])]), Slot([]), Slot([]), Slot([]), Slot([]), Slot([]), Slot([]), Slot([]), Slot([]), Slot([])]),
      [
        Row(10, KStr, Implicit(Str([]))),  // name
        Row(18, KMsg(FIELD_DESCRIPTOR_PROTO), Repeated),  // field
        Row(50, KMsg(FIELD_DESCRIPTOR_PROTO), Repeated),  // extension
        Row(26, KMsg(DESCRIPTOR_PROTO), Repeated),  // nestedType
        Row(34, KMsg(ENUM_DESCRIPTOR_PROTO), Repeated),  // enumType
        Row(42, KMsg(DESCRIPTOR_PROTO_EXTENSION_RANGE), Repeated),  // extensionRange
        Row(66, KMsg(ONEOF_DESCRIPTOR_PROTO), Repeated),  // oneofDecl
        Row(58, KMsg(MESSAGE_OPTIONS), Explicit),  // options
        Row(74, KMsg(DESCRIPTOR_PROTO_RESERVED_RANGE), Repeated),  // reservedRange
        Row(82, KStr, Repeated)  // reservedName
      ],
      map[
        10 := Arm(0, KStr, Assign),  // name
        18 := Arm(1, KMsg(FIELD_DESCRIPTOR_PROTO), Push),  // field
        50 := Arm(2, KMsg(FIELD_DESCRIPTOR_PROTO), Push),  // extension
        26 := Arm(3, KMsg(DESCRIPTOR_PROTO), Push),  // nestedType
        34 := Arm(4, KMsg(ENUM_DESCRIPTOR_PROTO), Push),  // enumType
        42 := Arm(5, KMsg(DESCRIPTOR_PROTO_EXTENSION_RANGE), Push),  // extensionRange
        66 := Arm(6, KMsg(ONEOF_DESCRIPTOR_PROTO), Push),  // oneofDecl
        58 := Arm(7, KMsg(MESSAGE_OPTIONS), Assign),  // options
        74 := Arm(8, KMsg(DESCRIPTOR_PROTO_RESERVED_RANGE), Push),  // reservedRange
        82 := Arm(9, KStr, Push)  // reservedName
      ])
  }

  function DescriptorProto_ExtensionRangeSchema(): Schema {
    Schema(
      Msg([Slot([Int(0)]), Slot([Int(0)]), Slot([])]),
      [
        Row(8, KInt32, Implicit(Int(0))),  // start
        Row(16, KInt32, Implicit(Int(0))),  // end
        Row(26, KMsg(EXTENSION_RANGE_OPTIONS), Explicit)  // options
      ],
      map[
        8 := Arm(0, KInt32, Assign),  // start
        16 := Arm(1, KInt32, Assign),  // end
        26 := Arm(2, KMsg(EXTENSION_RANGE_OPTIONS), Assign)  // options
      ])
  }

  function DescriptorProto_ReservedRangeSchema(): Schema {
    Schema(
      Msg([Slot([Int(0)]), Slot([Int(0)])]),
      [
        Row(8, KInt32, Implicit(Int(0))),  // start
        Row(16, KInt32, Implicit(Int(0)))  // end
      ],
      map[
        8 := Arm(0, KInt32, Assign),  // start
        16 := Arm(1, KInt32, Assign)  // end
      ])
  }

  function ExtensionRangeOptionsSchema(): Schema {
    Schema(
      Msg([Slot([]), Slot([]), Slot([]), Slot([Int(1)])]),
      [
        Row(7994, KMsg(UNINTERPRETED_OPTION), Repeated),  // uninterpretedOption
        Row(18, KMsg(EXTENSION_RANGE_OPTIONS_DECLARATION), Repeated),  // declaration
        Row(402, KMsg(FEATURE_SET), Explicit),  // features
        Row(24, KInt32, Implicit(Int(1)))  // verification
      ],
      map[
        7994 := Arm(0, KMsg(UNINTERPRETED_OPTION), Push),  // uninterpretedOption
        18 := Arm(1, KMsg(EXTENSION_RANGE_OPTIONS_DECLARATION), Push),  // declaration
        402 := Arm(2, KMsg(FEATURE_SET), Assign),  // features
        24 := Arm(3, KInt32, Assign)  // verification
      ])
  }

  function ExtensionRangeOptions_DeclarationSchema(): Schema {
    Schema(
      Msg([Slot([Int(0)]), Slot([Str([])]), Slot([Str([])]), Slot([Bool(false)]), Slot([Bool(false)])]),
      [
        Row(8, KInt32, Implicit(Int(0))),  // number
        Row(18, KStr, Implicit(Str([]))),  // fullName
        Row(26, KStr, Implicit(Str([]))),  // type
        Row(40, KBool, Implicit(Bool(false))),  // reserved
        Row(48, KBool, Implicit(Bool(false)))  // repeated
      ],
      map[
        8 := Arm(0, KInt32, Assign),  // number
        18 := Arm(1, KStr, Assign),  // fullName
        26 := Arm(2, KStr, Assign),  // type
        40 := Arm(3, KBool, Assign),  // reserved
        48 := Arm(4, KBool, Assign)  // repeated
      ])
  }

  function FieldDescriptorProtoSchema(): Schema {
    Schema(
      Msg([Slot([Str([])]), Slot([Int(0)]), Slot([Int(1)]), Slot([Int(1)]), Slot([Str([])]), Slot([Str([])]), Slot([Str([])]), Slot([Int(0)]), Slot([Str([])]), Slot([]), Slot([Bool(false)])]),
      [
        Row(10, KStr, Implicit(Str([]))),  // name
        Row(24, KInt32, Implicit(Int(0))),  // number
        Row(32, KInt32, Implicit(Int(1))),  // label
        Row(40, KInt32, Implicit(Int(1))),  // type
        Row(50, KStr, Implicit(Str([]))),  // typeName
        Row(18, KStr, Implicit(Str([]))),  // extendee
        Row(58, KStr, Implicit(Str([]))),  // defaultValue
        Row(72, KInt32, Implicit(Int(0))),  // oneofIndex
        Row(82, KStr, Implicit(Str([]))),  // jsonName
        Row(66, KMsg(FIELD_OPTIONS), Explicit),  // options
        Row(136, KBool, Implicit(Bool(false)))  // proto3Optional
      ],
      map[
        10 := Arm(0, KStr, Assign),  // name
        24 := Arm(1, KInt32, Assign),  // number
        32 := Arm(2, KInt32, Assign),  // label
        40 := Arm(3, KInt32, Assign),  // type
        50 := Arm(4, KStr, Assign),  // typeName
        18 := Arm(5, KStr, Assign),  // extendee
        58 := Arm(6, KStr, Assign),  // defaultValue
        72 := Arm(7, KInt32, Assign),  // oneofIndex
        82 := Arm(8, KStr, Assign),  // jsonName
        66 := Arm(9, KMsg(FIELD_OPTIONS), Assign),  // options
        136 := Arm(10, KBool, Assign)  // proto3Optional
      ])
  }

  function OneofDescriptorProtoSchema(): Schema {
    Schema(
      Msg([Slot([Str([])]), Slot([])]),
      [
        Row(10, KStr, Implicit(Str([]))),  // name
        Row(18, KMsg(ONEOF_OPTIONS), Explicit)  // options
      ],
      map[
        10 := Arm(0, KStr, Assign),  // name
        18 := Arm(1, KMsg(ONEOF_OPTIONS), Assign)  // options
      ])
  }

  function EnumDescriptorProtoSchema(): Schema {
    Schema(
      Msg([Slot([Str([])]), Slot([]), Slot([]), Slot([]), Slot([])]),
      [
        Row(10, KStr, Implicit(Str([]))),  // name
        Row(18, KMsg(ENUM_VALUE_DESCRIPTOR_PROTO), Repeated),  // value
        Row(26, KMsg(ENUM_OPTIONS), Explicit),  // options
        Row(34, KMsg(ENUM_DESCRIPTOR_PROTO_ENUM_RESERVED_RANGE), Repeated),  // reservedRange
        Row(42, KStr, Repeated)  // reservedName
      ],
      map[
        10 := Arm(0, KStr, Assign),  // name
        18 := Arm(1, KMsg(ENUM_VALUE_DESCRIPTOR_PROTO), Push),  // value
        26 := Arm(2, KMsg(ENUM_OPTIONS), Assign),  // options
        34 := Arm(3, KMsg(ENUM_DESCRIPTOR_PROTO_ENUM_RESERVED_RANGE), Push),  // reservedRange
        42 := Arm(4, KStr, Push)  // reservedName
      ])
  }

  function EnumDescriptorProto_EnumReservedRangeSchema(): Schema {
    Schema(
      Msg([Slot([Int(0)]), Slot([Int(0)])]),
      [
        Row(8, KInt32, Implicit(Int(0))),  // start
        Row(16, KInt32, Implicit(Int(0)))  // end
      ],
      map[
        8 := Arm(0, KInt32, Assign),  // start
        16 := Arm(1, KInt32, Assign)  // end
      ])
  }

  function EnumValueDescriptorProtoSchema(): Schema {
    Schema(
      Msg([Slot([Str([])]), Slot([Int(0)]), Slot([])]),
      [
        Row(10, KStr, Implicit(Str([]))),  // name
        Row(16, KInt32, Implicit(Int(0))),  // number
        Row(26, KMsg(ENUM_VALUE_OPTIONS), Explicit)  // options
      ],
      map[
        10 := Arm(0, KStr, Assign),  // name
        16 := Arm(1, KInt32, Assign),  // number
        26 := Arm(2, KMsg(ENUM_VALUE_OPTIONS), Assign)  // options
      ])
  }

  function ServiceDescriptorProtoSchema(): Schema {
    Schema(
      Msg([Slot([Str([])]), Slot([]), Slot([])]),
      [
        Row(10, KStr, Implicit(Str([]))),  // name
        Row(18, KMsg(METHOD_DESCRIPTOR_PROTO), Repeated),  // method
        Row(26, KMsg(SERVICE_OPTIONS), Explicit)  // options
      ],
      map[
        10 := Arm(0, KStr, Assign),  // name
        18 := Arm(1, KMsg(METHOD_DESCRIPTOR_PROTO), Push),  // method
        26 := Arm(2, KMsg(SERVICE_OPTIONS), Assign)  // options
      ])
  }

  function MethodDescriptorProtoSchema(): Schema {
    Schema(
      Msg([Slot([Str([])]), Slot([Str([])]), Slot([Str([])]), Slot([]), Slot([Bool(false)]), Slot([Bool(false)])]),
      [
        Row(10, KStr, Implicit(Str([]))),  // name
        Row(18, KStr, Implicit(Str([]))),  // inputType
        Row(26, KStr, Implicit(Str([]))),  // outputType
        Row(34, KMsg(METHOD_OPTIONS), Explicit),  // options
        Row(40, KBool, Implicit(Bool(false))),  // clientStreaming
        Row(48, KBool, Implicit(Bool(false)))  // serverStreaming
      ],
      map[
        10 := Arm(0, KStr, Assign),  // name
        18 := Arm(1, KStr, Assign),  // inputType
        26 := Arm(2, KStr, Assign),  // outputType
        34 := Arm(3, KMsg(METHOD_OPTIONS), Assign),  // options
        40 := Arm(4, KBool, Assign),  // clientStreaming
        48 := Arm(5, KBool, Assign)  // serverStreaming
      ])
  }

  function FileOptionsSchema(): Schema {
    Schema(
      Msg([Slot([Str([])]), Slot([Str([])]), Slot([Bool(false)]), Slot([Bool(false)]), Slot([Bool(false)]), Slot([Int(1)]), Slot([Str([])]), Slot([Bool(false)]), Slot([Bool(false)]), Slot([Bool(false)]), Slot([Bool(false)]), Slot([Bool(true)]), Slot([Str([])]), Slot([Str([])]), Slot([Str([])]), Slot([Str([])]), Slot([Str([])]), Slot([Str([])]), Slot([Str([])]), Slot([]), Slot([])]),
      [
        Row(10, KStr, Implicit(Str([]))),  // javaPackage
        Row(66, KStr, Implicit(Str([]))),  // javaOuterClassname
        Row(80, KBool, Implicit(Bool(false))),  // javaMultipleFiles
        Row(160, KBool, Implicit(Bool(false))),  // javaGenerateEqualsAndHash
        Row(216, KBool, Implicit(Bool(false))),  // javaStringCheckUtf8
        Row(72, KInt32, Implicit(Int(1))),  // optimizeFor
        Row(90, KStr, Implicit(Str([]))),  // goPackage
        Row(128, KBool, Implicit(Bool(false))),  // ccGenericServices
        Row(136, KBool, Implicit(Bool(false))),  // javaGenericServices
        Row(144, KBool, Implicit(Bool(false))),  // pyGenericServices
        Row(184, KBool, Implicit(Bool(false))),  // deprecated
        Row(248, KBool, Implicit(Bool(true))),  // ccEnableArenas
        Row(290, KStr, Implicit(Str([]))),  // objcClassPrefix
        Row(298, KStr, Implicit(Str([]))),  // csharpNamespace
        Row(314, KStr, Implicit(Str([]))),  // swiftPrefix
        Row(322, KStr, Implicit(Str([]))),  // phpClassPrefix
        Row(330, KStr, Implicit(Str([]))),  // phpNamespace
        Row(354, KStr, Implicit(Str([]))),  // phpMetadataNamespace
        Row(362, KStr, Implicit(Str([]))),  // rubyPackage
        Row(402, KMsg(FEATURE_SET), Explicit),  // features
        Row(7994, KMsg(UNINTERPRETED_OPTION), Repeated)  // uninterpretedOption
      ],
      map[
        10 := Arm(0, KStr, Assign),  // javaPackage
        66 := Arm(1, KStr, Assign),  // javaOuterClassname
        80 := Arm(2, KBool, Assign),  // javaMultipleFiles
        160 := Arm(3, KBool, Assign),  // javaGenerateEqualsAndHash
        216 := Arm(4, KBool, Assign),  // javaStringCheckUtf8
        72 := Arm(5, KInt32, Assign),  // optimizeFor
        90 := Arm(6, KStr, Assign),  // goPackage
        128 := Arm(7, KBool, Assign),  // ccGenericServices
        136 := Arm(8, KBool, Assign),  // javaGenericServices
        144 := Arm(9, KBool, Assign),  // pyGenericServices
        184 := Arm(10, KBool, Assign),  // deprecated
        248 := Arm(11, KBool, Assign),  // ccEnableArenas
        290 := Arm(12, KStr, Assign),  // objcClassPrefix
        298 := Arm(13, KStr, Assign),  // csharpNamespace
        314 := Arm(14, KStr, Assign),  // swiftPrefix
        322 := Arm(15, KStr, Assign),  // phpClassPrefix
        330 := Arm(16, KStr, Assign),  // phpNamespace
        354 := Arm(17, KStr, Assign),  // phpMetadataNamespace
        362 := Arm(18, KStr, Assign),  // rubyPackage
        402 := Arm(19, KMsg(FEATURE_SET), Assign),  // features
        7994 := Arm(20, KMsg(UNINTERPRETED_OPTION), Push)  // uninterpretedOption
      ])
  }

  function MessageOptionsSchema(): Schema {
    Schema(
      Msg([Slot([Bool(false)]), Slot([Bool(false)]), Slot([Bool(false)]), Slot([Bool(false)]), Slot([Bool(false)]), Slot([]), Slot([])]),
      [
        Row(8, KBool, Implicit(Bool(false))),  // messageSetWireFormat
        Row(16, KBool, Implicit(Bool(false))),  // noStandardDescriptorAccessor
        Row(24, KBool, Implicit(Bool(false))),  // deprecated
        Row(56, KBool, Implicit(Bool(false))),  // mapEntry
        Row(88, KBool, Implicit(Bool(false))),  // deprecatedLegacyJsonFieldConflicts
        Row(98, KMsg(FEATURE_SET), Explicit),  // features
        Row(7994, KMsg(UNINTERPRETED_OPTION), Repeated)  // uninterpretedOption
      ],
      map[
        8 := Arm(0, KBool, Assign),  // messageSetWireFormat
        16 := Arm(1, KBool, Assign),  // noStandardDescriptorAccessor
        24 := Arm(2, KBool, Assign),  // deprecated
        56 := Arm(3, KBool, Assign),  // mapEntry
        88 := Arm(4, KBool, Assign),  // deprecatedLegacyJsonFieldConflicts
        98 := Arm(5, KMsg(FEATURE_SET), Assign),  // features
        7994 := Arm(6, KMsg(UNINTERPRETED_OPTION), Push)  // uninterpretedOption
      ])
  }

  function FieldOptionsSchema(): Schema {
    Schema(
      Msg([Slot([Int(0)]), Slot([Bool(false)]), Slot([Int(0)]), Slot([Bool(false)]), Slot([Bool(false)]), Slot([Bool(false)]), Slot([Bool(false)]), Slot([Bool(false)]), Slot([Int(0)]), Slot([]), Slot([]), Slot([]), Slot([]), Slot([])]),
      [
        Row(8, KInt32, Implicit(Int(0))),  // ctype
        Row(16, KBool, Implicit(Bool(false))),  // packed
        Row(48, KInt32, Implicit(Int(0))),  // jstype
        Row(40, KBool, Implicit(Bool(false))),  // lazy
        Row(120, KBool, Implicit(Bool(false))),  // unverifiedLazy
        Row(24, KBool, Implicit(Bool(false))),  // deprecated
        Row(80, KBool, Implicit(Bool(false))),  // weak
        Row(128, KBool, Implicit(Bool(false))),  // debugRedact
        Row(136, KInt32, Implicit(Int(0))),  // retention
        Row(152, KInt32, Repeated),  // targets
        Row(162, KMsg(FIELD_OPTIONS_EDITION_DEFAULT), Repeated),  // editionDefaults
        Row(170, KMsg(FEATURE_SET), Explicit),  // features
        Row(178, KMsg(FIELD_OPTIONS_FEATURE_SUPPORT), Explicit),  // featureSupport
        Row(7994, KMsg(UNINTERPRETED_OPTION), Repeated)  // uninterpretedOption
      ],
      map[
        8 := Arm(0, KInt32, Assign),  // ctype
        16 := Arm(1, KBool, Assign),  // packed
        48 := Arm(2, KInt32, Assign),  // jstype
        40 := Arm(3, KBool, Assign),  // lazy
        120 := Arm(4, KBool, Assign),  // unverifiedLazy
        24 := Arm(5, KBool, Assign),  // deprecated
        80 := Arm(6, KBool, Assign),  // weak
        128 := Arm(7, KBool, Assign),  // debugRedact
        136 := Arm(8, KInt32, Assign),  // retention
        152 := Arm(9, KInt32, Push),  // targets
        154 := Arm(9, KInt32, PushPacked),  // targets
        162 := Arm(10, KMsg(FIELD_OPTIONS_EDITION_DEFAULT), Push),  // editionDefaults
        170 := Arm(11, KMsg(FEATURE_SET), Assign),  // features
        178 := Arm(12, KMsg(FIELD_OPTIONS_FEATURE_SUPPORT), Assign),  // featureSupport
        7994 := Arm(13, KMsg(UNINTERPRETED_OPTION), Push)  // uninterpretedOption
      ])
  }

  function FieldOptions_EditionDefaultSchema(): Schema {
    Schema(
      Msg([Slot([Int(0)]), Slot([Str([])])]),
      [
        Row(24, KInt32, Implicit(Int(0))),  // edition
        Row(18, KStr, Implicit(Str([])))  // value
      ],
      map[
        24 := Arm(0, KInt32, Assign),  // edition
        18 := Arm(1, KStr, Assign)  // value
      ])
  }

  function FieldOptions_FeatureSupportSchema(): Schema {
    Schema(
      Msg([Slot([Int(0)]), Slot([Int(0)]), Slot([Str([])]), Slot([Int(0)])]),
      [
        Row(8, KInt32, Implicit(Int(0))),  // editionIntroduced
        Row(16, KInt32, Implicit(Int(0))),  // editionDeprecated
        Row(26, KStr, Implicit(Str([]))),  // deprecationWarning
        Row(32, KInt32, Implicit(Int(0)))  // editionRemoved
      ],
      map[
        8 := Arm(0, KInt32, Assign),  // editionIntroduced
        16 := Arm(1, KInt32, Assign),  // editionDeprecated
        26 := Arm(2, KStr, Assign),  // deprecationWarning
        32 := Arm(3, KInt32, Assign)  // editionRemoved
      ])
  }

  function OneofOptionsSchema(): Schema {
    Schema(
      Msg([Slot([]), Slot([])]),
      [
        Row(10, KMsg(FEATURE_SET), Explicit),  // features
        Row(7994, KMsg(UNINTERPRETED_OPTION), Repeated)  // uninterpretedOption
      ],
      map[
        10 := Arm(0, KMsg(FEATURE_SET), Assign),  // features
        7994 := Arm(1, KMsg(UNINTERPRETED_OPTION), Push)  // uninterpretedOption
      ])
  }

  function EnumOptionsSchema(): Schema {
    Schema(
      Msg([Slot([Bool(false)]), Slot([Bool(false)]), Slot([Bool(false)]), Slot([]), Slot([])]),
      [
        Row(16, KBool, Implicit(Bool(false))),  // allowAlias
        Row(24, KBool, Implicit(Bool(false))),  // deprecated
        Row(48, KBool, Implicit(Bool(false))),  // deprecatedLegacyJsonFieldConflicts
        Row(58, KMsg(FEATURE_SET), Explicit),  // features
        Row(7994, KMsg(UNINTERPRETED_OPTION), Repeated)  // uninterpretedOption
      ],
      map[
        16 := Arm(0, KBool, Assign),  // allowAlias
        24 := Arm(1, KBool, Assign),  // deprecated
        48 := Arm(2, KBool, Assign),  // deprecatedLegacyJsonFieldConflicts
        58 := Arm(3, KMsg(FEATURE_SET), Assign),  // features
        7994 := Arm(4, KMsg(UNINTERPRETED_OPTION), Push)  // uninterpretedOption
      ])
  }

  function EnumValueOptionsSchema(): Schema {
    Schema(
      Msg([Slot([Bool(false)]), Slot([]), Slot([Bool(false)]), Slot([]), Slot([])]),
      [
        Row(8, KBool, Implicit(Bool(false))),  // deprecated
        Row(18, KMsg(FEATURE_SET), Explicit),  // features
        Row(24, KBool, Implicit(Bool(false))),  // debugRedact
        Row(34, KMsg(FIELD_OPTIONS_FEATURE_SUPPORT), Explicit),  // featureSupport
        Row(7994, KMsg(UNINTERPRETED_OPTION), Repeated)  // uninterpretedOption
      ],
      map[
        8 := Arm(0, KBool, Assign),  // deprecated
        18 := Arm(1, KMsg(FEATURE_SET), Assign),  // features
        24 := Arm(2, KBool, Assign),  // debugRedact
        34 := Arm(3, KMsg(FIELD_OPTIONS_FEATURE_SUPPORT), Assign),  // featureSupport
        7994 := Arm(4, KMsg(UNINTERPRETED_OPTION), Push)  // uninterpretedOption
      ])
  }

  function ServiceOptionsSchema(): Schema {
    Schema(
      Msg([Slot([]), Slot([Bool(false)]), Slot([])]),
      [
        Row(274, KMsg(FEATURE_SET), Explicit),  // features
        Row(264, KBool, Implicit(Bool(false))),  // deprecated
        Row(7994, KMsg(UNINTERPRETED_OPTION), Repeated)  // uninterpretedOption
      ],
      map[
        274 := Arm(0, KMsg(FEATURE_SET), Assign),  // features
        264 := Arm(1, KBool, Assign),  // deprecated
        7994 := Arm(2, KMsg(UNINTERPRETED_OPTION), Push)  // uninterpretedOption
      ])
  }

  function MethodOptionsSchema(): Schema {
    Schema(
      Msg([Slot([Bool(false)]), Slot([Int(0)]), Slot([]), Slot([])]),
      [
        Row(264, KBool, Implicit(Bool(false))),  // deprecated
        Row(272, KInt32, Implicit(Int(0))),  // idempotencyLevel
        Row(282, KMsg(FEATURE_SET), Explicit),  // features
        Row(7994, KMsg(UNINTERPRETED_OPTION), Repeated)  // uninterpretedOption
      ],
      map[
        264 := Arm(0, KBool, Assign),  // deprecated
        272 := Arm(1, KInt32, Assign),  // idempotencyLevel
        282 := Arm(2, KMsg(FEATURE_SET), Assign),  // features
        7994 := Arm(3, KMsg(UNINTERPRETED_OPTION), Push)  // uninterpretedOption
      ])
  }

  function UninterpretedOptionSchema(): Schema {
    Schema(
      Msg([Slot([]), Slot([Str([])]), Slot([Int(0)]), Slot([Int(0)]), Slot([Fixed(PLUS_ZERO)]), Slot([Str([])]), Slot([Str([])])]),
      [
        Row(18, KMsg(UNINTERPRETED_OPTION_NAME_PART), Repeated),  // name
        Row(26, KStr, Implicit(Str([]))),  // identifierValue
        Row(32, KUint64, Implicit(Int(0))),  // positiveIntValue
        Row(40, KInt64, Implicit(Int(0))),  // negativeIntValue
        Row(49, KDouble, Implicit(Fixed(PLUS_ZERO))),  // doubleValue
        Row(58, KStr, Implicit(Str([]))),  // stringValue
        Row(66, KStr, Implicit(Str([])))  // aggregateValue
      ],
      map[
        18 := Arm(0, KMsg(UNINTERPRETED_OPTION_NAME_PART), Push),  // name
        26 := Arm(1, KStr, Assign),  // identifierValue
        32 := Arm(2, KUint64, Assign),  // positiveIntValue
        40 := Arm(3, KInt64, Assign),  // negativeIntValue
        49 := Arm(4, KDouble, Assign),  // doubleValue
        58 := Arm(5, KStr, Assign),  // stringValue
        66 := Arm(6, KStr, Assign)  // aggregateValue
      ])
  }

  function UninterpretedOption_NamePartSchema(): Schema {
    Schema(
      Msg([Slot([Str([])]), Slot([Bool(false)])]),
      [
        Row(10, KStr, Implicit(Str([]))),  // namePart
        Row(16, KBool, Implicit(Bool(false)))  // isExtension
      ],
      map[
        10 := Arm(0, KStr, Assign),  // namePart
        16 := Arm(1, KBool, Assign)  // isExtension
      ])
  }

  function FeatureSetSchema(): Schema {
    Schema(
      Msg([Slot([Int(0)]), Slot([Int(0)]), Slot([Int(0)]), Slot([Int(0)]), Slot([Int(0)]), Slot([Int(0)]), Slot([Int(0)])]),
      [
        Row(8, KInt32, Implicit(Int(0))),  // fieldPresence
        Row(16, KInt32, Implicit(Int(0))),  // enumType
        Row(24, KInt32, Implicit(Int(0))),  // repeatedFieldEncoding
        Row(32, KInt32, Implicit(Int(0))),  // utf8Validation
        Row(40, KInt32, Implicit(Int(0))),  // messageEncoding
        Row(48, KInt32, Implicit(Int(0))),  // jsonFormat
        Row(56, KInt32, Implicit(Int(0)))  // enforceNamingStyle
      ],
      map[
        8 := Arm(0, KInt32, Assign),  // fieldPresence
        16 := Arm(1, KInt32, Assign),  // enumType
        24 := Arm(2, KInt32, Assign),  // repeatedFieldEncoding
        32 := Arm(3, KInt32, Assign),  // utf8Validation
        40 := Arm(4, KInt32, Assign),  // messageEncoding
        48 := Arm(5, KInt32, Assign),  // jsonFormat
        56 := Arm(6, KInt32, Assign)  // enforceNamingStyle
      ])
  }

  function FeatureSetDefaultsSchema(): Schema {
    Schema(
      Msg([Slot([]), Slot([Int(0)]), Slot([Int(0)])]),
      [
        Row(10, KMsg(FEATURE_SET_DEFAULTS_FEATURE_SET_EDITION_DEFAULT), Repeated),  // defaults
        Row(32, KInt32, Implicit(Int(0))),  // minimumEdition
        Row(40, KInt32, Implicit(Int(0)))  // maximumEdition
      ],
      map[
        10 := Arm(0, KMsg(FEATURE_SET_DEFAULTS_FEATURE_SET_EDITION_DEFAULT), Push),  // defaults
        32 := Arm(1, KInt32, Assign),  // minimumEdition
        40 := Arm(2, KInt32, Assign)  // maximumEdition
      ])
  }

  function FeatureSetDefaults_FeatureSetEditionDefaultSchema(): Schema {
    Schema(
      Msg([Slot([Int(0)]), Slot([]), Slot([])]),
      [
        Row(24, KInt32, Implicit(Int(0))),  // edition
        Row(34, KMsg(FEATURE_SET), Explicit),  // overridableFeatures
        Row(42, KMsg(FEATURE_SET), Explicit)  // fixedFeatures
      ],
      map[
        24 := Arm(0, KInt32, Assign),  // edition
        34 := Arm(1, KMsg(FEATURE_SET), Assign),  // overridableFeatures
        42 := Arm(2, KMsg(FEATURE_SET), Assign)  // fixedFeatures
      ])
  }

  function SourceCodeInfoSchema(): Schema {
    Schema(
      Msg([Slot([])]),
      [
        Row(10, KMsg(SOURCE_CODE_INFO_LOCATION), Repeated)  // location
      ],
      map[
        10 := Arm(0, KMsg(SOURCE_CODE_INFO_LOCATION), Push)  // location
      ])
  }

  function SourceCodeInfo_LocationSchema(): Schema {
    Schema(
      Msg([Slot([]), Slot([]), Slot([Str([])]), Slot([Str([])]), Slot([])]),
      [
        Row(10, KInt32, Packed),  // path
        Row(18, KInt32, Packed),  // span
        Row(26, KStr, Implicit(Str([]))),  // leadingComments
        Row(34, KStr, Implicit(Str([]))),  // trailingComments
        Row(50, KStr, Repeated)  // leadingDetachedComments
      ],
      map[
        8 := Arm(0, KInt32, Push),  // path
        10 := Arm(0, KInt32, PushPacked),  // path
        16 := Arm(1, KInt32, Push),  // span
        18 := Arm(1, KInt32, PushPacked),  // span
        26 := Arm(2, KStr, Assign),  // leadingComments
        34 := Arm(3, KStr, Assign),  // trailingComments
        50 := Arm(4, KStr, Push)  // leadingDetachedComments
      ])
  }

  function GeneratedCodeInfoSchema(): Schema {
    Schema(
      Msg([Slot([])]),
      [
        Row(10, KMsg(GENERATED_CODE_INFO_ANNOTATION), Repeated)  // annotation
      ],
      map[
        10 := Arm(0, KMsg(GENERATED_CODE_INFO_ANNOTATION), Push)  // annotation
      ])
  }

  function GeneratedCodeInfo_AnnotationSchema(): Schema {
    Schema(
      Msg([Slot([]), Slot([Str([])]), Slot([Int(0)]), Slot([Int(0)]), Slot([Int(0)])]),
      [
        Row(10, KInt32, Packed),  // path
        Row(18, KStr, Implicit(Str([]))),  // sourceFile
        Row(24, KInt32, Implicit(Int(0))),  // begin
        Row(32, KInt32, Implicit(Int(0))),  // end
        Row(40, KInt32, Implicit(Int(0)))  // semantic
      ],
      map[
        8 := Arm(0, KInt32, Push),  // path
        10 := Arm(0, KInt32, PushPacked),  // path
        18 := Arm(1, KStr, Assign),  // sourceFile
        24 := Arm(2, KInt32, Assign),  // begin
        32 := Arm(3, KInt32, Assign),  // end
        40 := Arm(4, KInt32, Assign)  // semantic
      ])
  }

  /** The messages in their places. */
  function DescriptorTables(): Grammar {
    [
      FileDescriptorSetSchema(),
      FileDescriptorProtoSchema(),
      DescriptorProtoSchema(),
      DescriptorProto_ExtensionRangeSchema(),
      DescriptorProto_ReservedRangeSchema(),
      ExtensionRangeOptionsSchema(),
      ExtensionRangeOptions_DeclarationSchema(),
      FieldDescriptorProtoSchema(),
      OneofDescriptorProtoSchema(),
      EnumDescriptorProtoSchema(),
      EnumDescriptorProto_EnumReservedRangeSchema(),
      EnumValueDescriptorProtoSchema(),
      ServiceDescriptorProtoSchema(),
      MethodDescriptorProtoSchema(),
      FileOptionsSchema(),
      MessageOptionsSchema(),
      FieldOptionsSchema(),
      FieldOptions_EditionDefaultSchema(),
      FieldOptions_FeatureSupportSchema(),
      OneofOptionsSchema(),
      EnumOptionsSchema(),
      EnumValueOptionsSchema(),
      ServiceOptionsSchema(),
      MethodOptionsSchema(),
      UninterpretedOptionSchema(),
      UninterpretedOption_NamePartSchema(),
      FeatureSetSchema(),
      FeatureSetDefaultsSchema(),
      FeatureSetDefaults_FeatureSetEditionDefaultSchema(),
      SourceCodeInfoSchema(),
      SourceCodeInfo_LocationSchema(),
      GeneratedCodeInfoSchema(),
      GeneratedCodeInfo_AnnotationSchema()
    ]
  }

  lemma FileDescriptorSetFits(g: Grammar)
    requires |g| == 33
    ensures SchemaOk(g, FileDescriptorSetSchema())
  {
  }

  lemma FileDescriptorProtoRows0To3(g: Grammar)
    requires |g| == 33
    ensures RowsOk(g, FileDescriptorProtoSchema(), 0, 3)
  {
  }

  lemma FileDescriptorProtoArms0To3(g: Grammar)
    requires |g| == 33
    ensures ArmsOk(g, FileDescriptorProtoSchema(), 0, 3)
  {
  }

  lemma FileDescriptorProtoRows3To6(g: Grammar)
    requires |g| == 33
    ensures RowsOk(g, FileDescriptorProtoSchema(), 3, 6)
  {
  }

  lemma FileDescriptorProtoArms3To6(g: Grammar)
    requires |g| == 33
    ensures ArmsOk(g, FileDescriptorProtoSchema(), 3, 6)
  {
  }

  lemma FileDescriptorProtoRows6To9(g: Grammar)
    requires |g| == 33
    ensures RowsOk(g, FileDescriptorProtoSchema(), 6, 9)
  {
  }

  lemma FileDescriptorProtoArms6To9(g: Grammar)
    requires |g| == 33
    ensures ArmsOk(g, FileDescriptorProtoSchema(), 6, 9)
  {
  }

  lemma FileDescriptorProtoRows9To12(g: Grammar)
    requires |g| == 33
    ensures RowsOk(g, FileDescriptorProtoSchema(), 9, 12)
  {
  }

  lemma FileDescriptorProtoArms9To12(g: Grammar)
    requires |g| == 33
    ensures ArmsOk(g, FileDescriptorProtoSchema(), 9, 12)
  {
  }

  lemma FileDescriptorProtoRows12To13(g: Grammar)
    requires |g| == 33
    ensures RowsOk(g, FileDescriptorProtoSchema(), 12, 13)
  {
  }

  lemma FileDescriptorProtoArms12To13(g: Grammar)
    requires |g| == 33
    ensures ArmsOk(g, FileDescriptorProtoSchema(), 12, 13)
  {
  }

  lemma FileDescriptorProtoFits(g: Grammar)
    requires |g| == 33
    ensures SchemaOk(g, FileDescriptorProtoSchema())
  {
    FileDescriptorProtoRows0To3(g);
    FileDescriptorProtoArms0To3(g);
    FileDescriptorProtoRows3To6(g);
    FileDescriptorProtoArms3To6(g);
    FileDescriptorProtoRows6To9(g);
    FileDescriptorProtoArms6To9(g);
    FileDescriptorProtoRows9To12(g);
    FileDescriptorProtoArms9To12(g);
    FileDescriptorProtoRows12To13(g);
    FileDescriptorProtoArms12To13(g);
  }

  lemma DescriptorProtoRows0To5(g: Grammar)
    requires |g| == 33
    ensures RowsOk(g, DescriptorProtoSchema(), 0, 5)
  {
  }

  lemma DescriptorProtoArms0To5(g: Grammar)
    requires |g| == 33
    ensures ArmsOk(g, DescriptorProtoSchema(), 0, 5)
  {
  }

  lemma DescriptorProtoRows5To10(g: Grammar)
    requires |g| == 33
    ensures RowsOk(g, DescriptorProtoSchema(), 5, 10)
  {
  }

  lemma DescriptorProtoArms5To10(g: Grammar)
    requires |g| == 33
    ensures ArmsOk(g, DescriptorProtoSchema(), 5, 10)
  {
  }

  lemma DescriptorProtoFits(g: Grammar)
    requires |g| == 33
    ensures SchemaOk(g, DescriptorProtoSchema())
  {
    DescriptorProtoRows0To5(g);
    DescriptorProtoArms0To5(g);
    DescriptorProtoRows5To10(g);
    DescriptorProtoArms5To10(g);
  }

  lemma DescriptorProto_ExtensionRangeFits(g: Grammar)
    requires |g| == 33
    ensures SchemaOk(g, DescriptorProto_ExtensionRangeSchema())
  {
  }

  lemma DescriptorProto_ReservedRangeFits(g: Grammar)
    requires |g| == 33
    ensures SchemaOk(g, DescriptorProto_ReservedRangeSchema())
  {
  }

  lemma ExtensionRangeOptionsFits(g: Grammar)
    requires |g| == 33
    ensures SchemaOk(g, ExtensionRangeOptionsSchema())
  {
  }

  lemma ExtensionRangeOptions_DeclarationFits(g: Grammar)
    requires |g| == 33
    ensures SchemaOk(g, ExtensionRangeOptions_DeclarationSchema())
  {
  }

  lemma FieldDescriptorProtoRows0To4(g: Grammar)
    requires |g| == 33
    ensures RowsOk(g, FieldDescriptorProtoSchema(), 0, 4)
  {
  }

  lemma FieldDescriptorProtoArms0To4(g: Grammar)
    requires |g| == 33
    ensures ArmsOk(g, FieldDescriptorProtoSchema(), 0, 4)
  {
  }

  lemma FieldDescriptorProtoRows4To8(g: Grammar)
    requires |g| == 33
    ensures RowsOk(g, FieldDescriptorProtoSchema(), 4, 8)
  {
  }

  lemma FieldDescriptorProtoArms4To8(g: Grammar)
    requires |g| == 33
    ensures ArmsOk(g, FieldDescriptorProtoSchema(), 4, 8)
  {
  }

  lemma FieldDescriptorProtoRows8To11(g: Grammar)
    requires |g| == 33
    ensures RowsOk(g, FieldDescriptorProtoSchema(), 8, 11)
  {
  }

  lemma FieldDescriptorProtoArms8To11(g: Grammar)
    requires |g| == 33
    ensures ArmsOk(g, FieldDescriptorProtoSchema(), 8, 11)
  {
  }

  lemma FieldDescriptorProtoFits(g: Grammar)
    requires |g| == 33
    ensures SchemaOk(g, FieldDescriptorProtoSchema())
  {
    FieldDescriptorProtoRows0To4(g);
    FieldDescriptorProtoArms0To4(g);
    FieldDescriptorProtoRows4To8(g);
    FieldDescriptorProtoArms4To8(g);
    FieldDescriptorProtoRows8To11(g);
    FieldDescriptorProtoArms8To11(g);
  }

  lemma OneofDescriptorProtoFits(g: Grammar)
    requires |g| == 33
    ensures SchemaOk(g, OneofDescriptorProtoSchema())
  {
  }

  lemma EnumDescriptorProtoFits(g: Grammar)
    requires |g| == 33
    ensures SchemaOk(g, EnumDescriptorProtoSchema())
  {
  }

  lemma EnumDescriptorProto_EnumReservedRangeFits(g: Grammar)
    requires |g| == 33
    ensures SchemaOk(g, EnumDescriptorProto_EnumReservedRangeSchema())
  {
  }

  lemma EnumValueDescriptorProtoFits(g: Grammar)
    requires |g| == 33
    ensures SchemaOk(g, EnumValueDescriptorProtoSchema())
  {
  }

  lemma ServiceDescriptorProtoFits(g: Grammar)
    requires |g| == 33
    ensures SchemaOk(g, ServiceDescriptorProtoSchema())
  {
  }

  lemma MethodDescriptorProtoRows0To3(g: Grammar)
    requires |g| == 33
    ensures RowsOk(g, MethodDescriptorProtoSchema(), 0, 3)
  {
  }

  lemma MethodDescriptorProtoArms0To3(g: Grammar)
    requires |g| == 33
    ensures ArmsOk(g, MethodDescriptorProtoSchema(), 0, 3)
  {
  }

  lemma MethodDescriptorProtoRows3To6(g: Grammar)
    requires |g| == 33
    ensures RowsOk(g, MethodDescriptorProtoSchema(), 3, 6)
  {
  }

  lemma MethodDescriptorProtoArms3To6(g: Grammar)
    requires |g| == 33
    ensures ArmsOk(g, MethodDescriptorProtoSchema(), 3, 6)
  {
  }

  lemma MethodDescriptorProtoFits(g: Grammar)
    requires |g| == 33
    ensures SchemaOk(g, MethodDescriptorProtoSchema())
  {
    MethodDescriptorProtoRows0To3(g);
    MethodDescriptorProtoArms0To3(g);
    MethodDescriptorProtoRows3To6(g);
    MethodDescriptorProtoArms3To6(g);
  }

  lemma FileOptionsRows0To2(g: Grammar)
    requires |g| == 33
    ensures RowsOk(g, FileOptionsSchema(), 0, 2)
  {
  }

  lemma FileOptionsArms0To2(g: Grammar)
    requires |g| == 33
    ensures ArmsOk(g, FileOptionsSchema(), 0, 2)
  {
  }

  lemma FileOptionsRows2To4(g: Grammar)
    requires |g| == 33
    ensures RowsOk(g, FileOptionsSchema(), 2, 4)
  {
  }

  lemma FileOptionsArms2To4(g: Grammar)
    requires |g| == 33
    ensures ArmsOk(g, FileOptionsSchema(), 2, 4)
  {
  }

  lemma FileOptionsRows4To6(g: Grammar)
    requires |g| == 33
    ensures RowsOk(g, FileOptionsSchema(), 4, 6)
  {
  }

  lemma FileOptionsArms4To6(g: Grammar)
    requires |g| == 33
    ensures ArmsOk(g, FileOptionsSchema(), 4, 6)
  {
  }

  lemma FileOptionsRows6To8(g: Grammar)
    requires |g| == 33
    ensures RowsOk(g, FileOptionsSchema(), 6, 8)
  {
  }

  lemma FileOptionsArms6To8(g: Grammar)
    requires |g| == 33
    ensures ArmsOk(g, FileOptionsSchema(), 6, 8)
  {
  }

  lemma FileOptionsRows8To10(g: Grammar)
    requires |g| == 33
    ensures RowsOk(g, FileOptionsSchema(), 8, 10)
  {
  }

  lemma FileOptionsArms8To10(g: Grammar)
    requires |g| == 33
    ensures ArmsOk(g, FileOptionsSchema(), 8, 10)
  {
  }

  lemma FileOptionsRows10To12(g: Grammar)
    requires |g| == 33
    ensures RowsOk(g, FileOptionsSchema(), 10, 12)
  {
  }

  lemma FileOptionsArms10To12(g: Grammar)
    requires |g| == 33
    ensures ArmsOk(g, FileOptionsSchema(), 10, 12)
  {
  }

  lemma FileOptionsRows12To14(g: Grammar)
    requires |g| == 33
    ensures RowsOk(g, FileOptionsSchema(), 12, 14)
  {
  }

  lemma FileOptionsArms12To14(g: Grammar)
    requires |g| == 33
    ensures ArmsOk(g, FileOptionsSchema(), 12, 14)
  {
  }

  lemma FileOptionsRows14To16(g: Grammar)
    requires |g| == 33
    ensures RowsOk(g, FileOptionsSchema(), 14, 16)
  {
  }

  lemma FileOptionsArms14To16(g: Grammar)
    requires |g| == 33
    ensures ArmsOk(g, FileOptionsSchema(), 14, 16)
  {
  }

  lemma FileOptionsRows16To18(g: Grammar)
    requires |g| == 33
    ensures RowsOk(g, FileOptionsSchema(), 16, 18)
  {
  }

  lemma FileOptionsArms16To18(g: Grammar)
    requires |g| == 33
    ensures ArmsOk(g, FileOptionsSchema(), 16, 18)
  {
  }

  lemma FileOptionsRows18To20(g: Grammar)
    requires |g| == 33
    ensures RowsOk(g, FileOptionsSchema(), 18, 20)
  {
  }

  lemma FileOptionsArms18To20(g: Grammar)
    requires |g| == 33
    ensures ArmsOk(g, FileOptionsSchema(), 18, 20)
  {
  }

  lemma FileOptionsRows20To21(g: Grammar)
    requires |g| == 33
    ensures RowsOk(g, FileOptionsSchema(), 20, 21)
  {
  }

  lemma FileOptionsArms20To21(g: Grammar)
    requires |g| == 33
    ensures ArmsOk(g, FileOptionsSchema(), 20, 21)
  {
  }

  lemma FileOptionsFits(g: Grammar)
    requires |g| == 33
    ensures SchemaOk(g, FileOptionsSchema())
  {
    FileOptionsRows0To2(g);
    FileOptionsArms0To2(g);
    FileOptionsRows2To4(g);
    FileOptionsArms2To4(g);
    FileOptionsRows4To6(g);
    FileOptionsArms4To6(g);
    FileOptionsRows6To8(g);
    FileOptionsArms6To8(g);
    FileOptionsRows8To10(g);
    FileOptionsArms8To10(g);
    FileOptionsRows10To12(g);
    FileOptionsArms10To12(g);
    FileOptionsRows12To14(g);
    FileOptionsArms12To14(g);
    FileOptionsRows14To16(g);
    FileOptionsArms14To16(g);
    FileOptionsRows16To18(g);
    FileOptionsArms16To18(g);
    FileOptionsRows18To20(g);
    FileOptionsArms18To20(g);
    FileOptionsRows20To21(g);
    FileOptionsArms20To21(g);
  }

  lemma MessageOptionsRows0To4(g: Grammar)
    requires |g| == 33
    ensures RowsOk(g, MessageOptionsSchema(), 0, 4)
  {
  }

  lemma MessageOptionsArms0To4(g: Grammar)
    requires |g| == 33
    ensures ArmsOk(g, MessageOptionsSchema(), 0, 4)
  {
  }

  lemma MessageOptionsRows4To7(g: Grammar)
    requires |g| == 33
    ensures RowsOk(g, MessageOptionsSchema(), 4, 7)
  {
  }

  lemma MessageOptionsArms4To7(g: Grammar)
    requires |g| == 33
    ensures ArmsOk(g, MessageOptionsSchema(), 4, 7)
  {
  }

  lemma MessageOptionsFits(g: Grammar)
    requires |g| == 33
    ensures SchemaOk(g, MessageOptionsSchema())
  {
    MessageOptionsRows0To4(g);
    MessageOptionsArms0To4(g);
    MessageOptionsRows4To7(g);
    MessageOptionsArms4To7(g);
  }

  lemma FieldOptionsRows0To4(g: Grammar)
    requires |g| == 33
    ensures RowsOk(g, FieldOptionsSchema(), 0, 4)
  {
  }

  lemma FieldOptionsArms0To4(g: Grammar)
    requires |g| == 33
    ensures ArmsOk(g, FieldOptionsSchema(), 0, 4)
  {
  }

  lemma FieldOptionsRows4To8(g: Grammar)
    requires |g| == 33
    ensures RowsOk(g, FieldOptionsSchema(), 4, 8)
  {
  }

  lemma FieldOptionsArms4To8(g: Grammar)
    requires |g| == 33
    ensures ArmsOk(g, FieldOptionsSchema(), 4, 8)
  {
  }

  lemma FieldOptionsRows8To12(g: Grammar)
    requires |g| == 33
    ensures RowsOk(g, FieldOptionsSchema(), 8, 12)
  {
  }

  lemma FieldOptionsArms8To12(g: Grammar)
    requires |g| == 33
    ensures ArmsOk(g, FieldOptionsSchema(), 8, 12)
  {
  }

  lemma FieldOptionsRows12To14(g: Grammar)
    requires |g| == 33
    ensures RowsOk(g, FieldOptionsSchema(), 12, 14)
  {
  }

  lemma FieldOptionsArms12To14(g: Grammar)
    requires |g| == 33
    ensures ArmsOk(g, FieldOptionsSchema(), 12, 14)
  {
  }

  lemma FieldOptionsFits(g: Grammar)
    requires |g| == 33
    ensures SchemaOk(g, FieldOptionsSchema())
  {
    FieldOptionsRows0To4(g);
    FieldOptionsArms0To4(g);
    FieldOptionsRows4To8(g);
    FieldOptionsArms4To8(g);
    FieldOptionsRows8To12(g);
    FieldOptionsArms8To12(g);
    FieldOptionsRows12To14(g);
    FieldOptionsArms12To14(g);
  }

  lemma FieldOptions_EditionDefaultFits(g: Grammar)
    requires |g| == 33
    ensures SchemaOk(g, FieldOptions_EditionDefaultSchema())
  {
  }

  lemma FieldOptions_FeatureSupportRows0To2(g: Grammar)
    requires |g| == 33
    ensures RowsOk(g, FieldOptions_FeatureSupportSchema(), 0, 2)
  {
  }

  lemma FieldOptions_FeatureSupportArms0To2(g: Grammar)
    requires |g| == 33
    ensures ArmsOk(g, FieldOptions_FeatureSupportSchema(), 0, 2)
  {
  }

  lemma FieldOptions_FeatureSupportRows2To4(g: Grammar)
    requires |g| == 33
    ensures RowsOk(g, FieldOptions_FeatureSupportSchema(), 2, 4)
  {
  }

  lemma FieldOptions_FeatureSupportArms2To4(g: Grammar)
    requires |g| == 33
    ensures ArmsOk(g, FieldOptions_FeatureSupportSchema(), 2, 4)
  {
  }

  lemma FieldOptions_FeatureSupportFits(g: Grammar)
    requires |g| == 33
    ensures SchemaOk(g, FieldOptions_FeatureSupportSchema())
  {
    FieldOptions_FeatureSupportRows0To2(g);
    FieldOptions_FeatureSupportArms0To2(g);
    FieldOptions_FeatureSupportRows2To4(g);
    FieldOptions_FeatureSupportArms2To4(g);
  }

  lemma OneofOptionsFits(g: Grammar)
    requires |g| == 33
    ensures SchemaOk(g, OneofOptionsSchema())
  {
  }

  lemma EnumOptionsFits(g: Grammar)
    requires |g| == 33
    ensures SchemaOk(g, EnumOptionsSchema())
  {
  }

  lemma EnumValueOptionsFits(g: Grammar)
    requires |g| == 33
    ensures SchemaOk(g, EnumValueOptionsSchema())
  {
  }

  lemma ServiceOptionsFits(g: Grammar)
    requires |g| == 33
    ensures SchemaOk(g, ServiceOptionsSchema())
  {
  }

  lemma MethodOptionsFits(g: Grammar)
    requires |g| == 33
    ensures SchemaOk(g, MethodOptionsSchema())
  {
  }

  lemma UninterpretedOptionRows0To4(g: Grammar)
    requires |g| == 33
    ensures RowsOk(g, UninterpretedOptionSchema(), 0, 4)
  {
  }

  lemma UninterpretedOptionArms0To4(g: Grammar)
    requires |g| == 33
    ensures ArmsOk(g, UninterpretedOptionSchema(), 0, 4)
  {
  }

  lemma UninterpretedOptionRows4To7(g: Grammar)
    requires |g| == 33
    ensures RowsOk(g, UninterpretedOptionSchema(), 4, 7)
  {
  }

  lemma UninterpretedOptionArms4To7(g: Grammar)
    requires |g| == 33
    ensures ArmsOk(g, UninterpretedOptionSchema(), 4, 7)
  {
  }

  lemma UninterpretedOptionFits(g: Grammar)
    requires |g| == 33
    ensures SchemaOk(g, UninterpretedOptionSchema())
  {
    UninterpretedOptionRows0To4(g);
    UninterpretedOptionArms0To4(g);
    UninterpretedOptionRows4To7(g);
    UninterpretedOptionArms4To7(g);
  }

  lemma UninterpretedOption_NamePartFits(g: Grammar)
    requires |g| == 33
    ensures SchemaOk(g, UninterpretedOption_NamePartSchema())
  {
  }

  lemma FeatureSetFits(g: Grammar)
    requires |g| == 33
    ensures SchemaOk(g, FeatureSetSchema())
  {
  }

  lemma FeatureSetDefaultsFits(g: Grammar)
    requires |g| == 33
    ensures SchemaOk(g, FeatureSetDefaultsSchema())
  {
  }

  lemma FeatureSetDefaults_FeatureSetEditionDefaultFits(g: Grammar)
    requires |g| == 33
    ensures SchemaOk(g, FeatureSetDefaults_FeatureSetEditionDefaultSchema())
  {
  }

  lemma SourceCodeInfoFits(g: Grammar)
    requires |g| == 33
    ensures SchemaOk(g, SourceCodeInfoSchema())
  {
  }

  lemma SourceCodeInfo_LocationFits(g: Grammar)
    requires |g| == 33
    ensures SchemaOk(g, SourceCodeInfo_LocationSchema())
  {
  }

  lemma GeneratedCodeInfoFits(g: Grammar)
    requires |g| == 33
    ensures SchemaOk(g, GeneratedCodeInfoSchema())
  {
  }

  lemma GeneratedCodeInfo_AnnotationRows0To3(g: Grammar)
    requires |g| == 33
    ensures RowsOk(g, GeneratedCodeInfo_AnnotationSchema(), 0, 3)
  {
  }

  lemma GeneratedCodeInfo_AnnotationArms0To3(g: Grammar)
    requires |g| == 33
    ensures ArmsOk(g, GeneratedCodeInfo_AnnotationSchema(), 0, 3)
  {
  }

  lemma GeneratedCodeInfo_AnnotationRows3To5(g: Grammar)
    requires |g| == 33
    ensures RowsOk(g, GeneratedCodeInfo_AnnotationSchema(), 3, 5)
  {
  }

  lemma GeneratedCodeInfo_AnnotationArms3To5(g: Grammar)
    requires |g| == 33
    ensures ArmsOk(g, GeneratedCodeInfo_AnnotationSchema(), 3, 5)
  {
  }

  lemma GeneratedCodeInfo_AnnotationFits(g: Grammar)
    requires |g| == 33
    ensures SchemaOk(g, GeneratedCodeInfo_AnnotationSchema())
  {
    GeneratedCodeInfo_AnnotationRows0To3(g);
    GeneratedCodeInfo_AnnotationArms0To3(g);
    GeneratedCodeInfo_AnnotationRows3To5(g);
    GeneratedCodeInfo_AnnotationArms3To5(g);
  }

  /** Every `encode` of the file writes what the `decode` of the same message reads back, into the
      property it came from, and leaves out exactly the values `createBase` starts from. */
  lemma DescriptorTablesFit()
    ensures GrammarOk(DescriptorTables())
  {
    var g := DescriptorTables();
    hide SchemaOk;
    FileDescriptorSetFits(g);
    FileDescriptorProtoFits(g);
    DescriptorProtoFits(g);
    DescriptorProto_ExtensionRangeFits(g);
    DescriptorProto_ReservedRangeFits(g);
    ExtensionRangeOptionsFits(g);
    ExtensionRangeOptions_DeclarationFits(g);
    FieldDescriptorProtoFits(g);
    OneofDescriptorProtoFits(g);
    EnumDescriptorProtoFits(g);
    EnumDescriptorProto_EnumReservedRangeFits(g);
    EnumValueDescriptorProtoFits(g);
    ServiceDescriptorProtoFits(g);
    MethodDescriptorProtoFits(g);
    FileOptionsFits(g);
    MessageOptionsFits(g);
    FieldOptionsFits(g);
    FieldOptions_EditionDefaultFits(g);
    FieldOptions_FeatureSupportFits(g);
    OneofOptionsFits(g);
    EnumOptionsFits(g);
    EnumValueOptionsFits(g);
    ServiceOptionsFits(g);
    MethodOptionsFits(g);
    UninterpretedOptionFits(g);
    UninterpretedOption_NamePartFits(g);
    FeatureSetFits(g);
    FeatureSetDefaultsFits(g);
    FeatureSetDefaults_FeatureSetEditionDefaultFits(g);
    SourceCodeInfoFits(g);
    SourceCodeInfo_LocationFits(g);
    GeneratedCodeInfoFits(g);
    GeneratedCodeInfo_AnnotationFits(g);
  }

  function DescriptorGrammar(): (g: Grammar)
    ensures GrammarOk(g) && |g| == 33
  {
    DescriptorTablesFit();
    DescriptorTables()
  }
}
