# Message codecs, account store and load test: a verified model

The repository serves a small gRPC application: a Go server with Google sign-in and a users table, a web
client with generated Protocol Buffers codecs, and a load test. This project models its three intricate
parts in Dafny and proves what they promise.

**The message codecs** of `web/src/generated`. `Wire` is the wire format as the encoding section of the
Protocol Buffers documentation describes it: varints, length-delimited records, groups; `Varints` says what
its bytes mean, one by one. `Codec` is what every generated `encode` and `decode` does, stated once over
tables; `HttpSchemas`, `AuthSchemas` and `DescriptorSchemas` are the tables of the three files, read off
`createBase`, `encode` and `decode` of each message, and are proved to fit together; `Properties`, with
`HttpProperties`, `AuthProperties` and `DescriptorProperties`, proves by name and number what each property
does. Over the tables are proved: locality (`Locality`), streams and insensitivity to order (`Streams`),
normalisation and concatenation (`RoundTrip`), unknown records (`Unknown`), what decode can return on
arbitrary bytes (`Decoded`), and encoding that again (`Reencoded`). `HttpCodec`, `AuthCodec` and
`DescriptorCodec` then write the codecs out as the files have them, with a writer whose `fork` and `join` work
on a stack and a decode loop that switches on the tag, and prove each method equal to what the tables say;
`Buffers`, `Fields`, `Statements` and `Turns` are the objects and equations for that. `WireForms` states the
bytes of those messages property by property. `Combined` and `DescriptorFacts` are the general results for
named messages. `Json`, `JsonRoundTrip` and `JsonForms` are the parallel JSON form, and `JsonKeys` reads it
key by key.

**The account store and its sessions**, `internal/db` and `internal/auth`. `Accounts` is the users table and
its SQL statements, `Tokens` the session tokens and the interceptor. `Sessions` is a transition system: any
number of logins, profile updates and look-ups at once, each step one statement, with a clock, an operator
who sets admin flags, and a store that may refuse a statement or lose its answer after running it. `Runs`,
`Provenance` and `Stale` are about all its runs. `Database` and `Server` are the same methods one call at a
time, as classes over the table; `Alone` shows that a call of the transition system that runs alone does
what they do.

**The load test**, `cmd/loadtest`: `LoadTest`, workers with two counters and a shared list, over every
interleaving.

Choices that matter for reading the results:

- A string is its encoded bytes, a double its eight bytes, an integer a mathematical one with the width
  written out. An optional property is `None` where the original has undefined.
- A reader method that throws returns `None`; `Fail` is a decode that throws.
- A message can be encoded when each length goes into 32 bits and each number into its type (`ValidMsg`).
- Where the original writes one property with one statement, the statement is a method of `Statements`, called
  once for each property; the inner loop over a packed run is one too. A switch on `tag >>> 3` is a `match` on
  `tag / 8`.
- A nested decode goes on with the same reader, so on malformed input it may run past its own length, as in
  the original; never past the input.
- Signatures are ideal: a token is valid only if the server issued it. Google's verdict on an ID token is an
  input. The username generator is an input of the transition system, with only the pattern of its results;
  `Usernames` proves that pattern of the generator.
- A read of the table and the issue of a token are separate steps, because they are separate in the code.

Three properties one might expect are false of the code. Each has an example and the exact condition under
which it holds:

- That what decode returns comes back when it is encoded and decoded again. `encode` leaves out a double that
  compares equal to zero, so minus zero comes back as plus zero (`DescriptorFacts.MinusZeroIsLost`). It comes
  back exactly when no omittable double in the message is minus zero (`Reencoded.DecodedComesBack`).
- That a token says at its issue what its row says. The login reads the row first, and the operator may write
  in between. It does exactly when the operator has not, since the read, last written the other flag
  (`Provenance.CurrentAtIssue`).
- That `ListUsers` runs only for someone who was an admin less than a day before. The operator may clear the
  flag after the login read it, and the token lasts a day from its issue (`Stale.AuthorityCanBeStale`). Let `w`
  be the first step, from the read on, less than a day before the call starts: it holds exactly when the
  operator had not last cleared the flag between the read and `w`, or set it between `w` and the start. It
  always holds if the operator had not last cleared it between the read and the issue
  (`Stale.ListingWithinDay`).

`dafny verify dfyconfig.toml` checks the whole project.

## Model

| member | source | states |
|---|---|---|
| Wire.ReadVarintWritten | web/src/generated/google/api/http.ts:8 | The reader reads back any 64-bit integer from its shortest varint, whatever follows, and stands right after it. |
| Wire.ReadBytesWritten | web/src/generated/google/api/http.ts:8 | A length-prefixed string of less than 2^32 bytes reads back exactly. |
| Wire.SkipLocal | web/src/generated/google/api/http.ts:595 | Skipping a record, groups inside groups included, depends only on the bytes it passes over. |
| Wire.Int32RoundTrip | web/src/generated/google/protobuf/descriptor.ts:6620-6628 | Every 32-bit integer, negatives included, survives the 64-bit two's complement form it is written in. |
| Varints.VarintForm | web/src/generated/google/api/http.ts:472 | What is written for a number, byte by byte: every byte but the last is at least 128, and the low seven bits, each weighted by its place, add up to the number. |
| Varints.LengthPrefixedForm | web/src/generated/google/api/http.ts:472 | A string is written as the varint of its length, then its bytes. |
| Varints.ReadRawExact | web/src/generated/google/api/http.ts:508-516 | Reading gives a value and a position exactly when the bytes up to there have that form, are not too many, and add up to the value. |
| Varints.NumbersExact | web/src/generated/google/protobuf/descriptor.ts:5911-5960 | From the value of the varint: the low 32 bits, signed or not, a flag that is any value but zero, and the 64-bit integers up to 2^53-1, with an error beyond. |
| Varints.BytesExact | web/src/generated/google/api/http.ts:516 | A string is as many bytes as the low 32 bits of that value say; with fewer left the read throws. |
| Varints.SkipExact | web/src/generated/google/api/http.ts:595 | What each wire type is skipped as: a varint, eight bytes, a length and its bytes, a group, four bytes; the others throw. |
| Varints.GroupEndExact | web/src/generated/google/api/http.ts:592-595 | A group ends at an end tag, inside another group only at its own; the number zero and any other end tag there throw. |
| Codec.ReadPacked | web/src/generated/google/protobuf/descriptor.ts:6656-6660 | The inner loop of a packed list never passes the end of the input without failing. |
| Codec.ReadStep | web/src/generated/google/api/http.ts:508-595 | Each turn of a decode loop, nested decodes included, moves the reader strictly forward and never past the input without failing. |
| Codec.Loop | web/src/generated/google/api/http.ts:504-598 | The decode loop ends on every byte string, never past the input, and beyond where it began if there was anything to read. |
| Locality.LoopLocal | web/src/generated/google/api/http.ts:504-598 | A decode that does not throw depends only on the bytes it consumed: the same bytes at any other place give the same message and the matching position. |
| HttpSchemas.HttpTablesFit | web/src/generated/google/api/http.ts:374-742 | For all messages of the file: each property `encode` writes has the tag and type that some `decode` arm takes into that same property, and exactly the base values of `createBase` are left out. |
| AuthSchemas.AuthTablesFit | web/src/generated/auth.ts:48-518 | The same for all messages of the file. |
| DescriptorSchemas.DescriptorTablesFit | web/src/generated/google/protobuf/descriptor.ts:2143-6990 | The same for all 33 messages of the file. |
| Properties.TableHasProperties | web/src/generated/google/protobuf/descriptor.ts:2534-2663 | From a list of the properties of a message, with number, wire type, type and default: no bytes decode to the base message, the record of one value of one property to the base message with just that, that message encodes to that record or to nothing for the default, an integer list reads packed too, and every other tag is passed over. |
| DescriptorProperties.MessagesHaveProperties | web/src/generated/google/protobuf/descriptor.ts:2143-6990 | So for every property, by name and number, of all 33 messages of the file. |
| DescriptorProperties.FieldAndExtension | web/src/generated/google/protobuf/descriptor.ts:2539-2597 | Two properties of one type, byte for byte: behind 18 a field descriptor becomes a field, behind 50 an extension. |
| HttpProperties.MessagesHaveProperties | web/src/generated/google/api/http.ts:374-742 | So for every property of every message of the file. |
| AuthProperties.MessagesHaveProperties | web/src/generated/auth.ts:48-518 | So for every property of every message of the file. |
| Streams.LoopOverStream | web/src/generated/google/api/http.ts:508-597 | Wherever a run of whole records lies, a decode loop that reaches it applies their effects in order and arrives at its end. |
| Streams.OrderWithinFieldsDecides | web/src/generated/google/api/http.ts:489-500 | Two record streams that agree on the order within each property decode to the same message, however properties and unknown records are interleaved. |
| Unknown.SkipContent | web/src/generated/google/api/http.ts:592-595 | An unknown record is skipped exactly, nested groups to their matching end tags. |
| Unknown.UnknownIsRecord | web/src/generated/google/api/http.ts:508-597 | A record with an unlisted field number, or a listed one under another wire type, is passed over without effect. |
| Unknown.UnknownRecordsIgnored | web/src/generated/google/api/http.ts:508-597 | Any number of unknown records between any two records, at any nesting depth, leaves the decoded message as it is without them. |
| RoundTrip.LongExact | web/src/generated/google/protobuf/descriptor.ts:7013-7022 | A 64-bit varint in any form, at any place, gives the exact integer if its magnitude is at most 2^53-1 and throws exactly otherwise, signed and unsigned. |
| RoundTrip.LongRoundTrip | web/src/generated/google/protobuf/descriptor.ts:5893-5898 | Every integer in that range with a valid sign comes back from its varint form. |
| RoundTrip.DecodeInto | web/src/generated/google/api/http.ts:504-598 | A loop that has built one message and reaches an encoding of another merges it in and stops exactly at its end. |
| RoundTrip.DecodeEncode | web/src/generated/google/protobuf/descriptor.ts:2535-2663 | Encode, any bytes before and after, decode with the length: the message normalised at every depth, undefined scalars filled in with their defaults and everything else kept, and the reader right behind it. |
| Reencoded.SecondRound | web/src/generated/google/protobuf/descriptor.ts:2535-2663 | After one round trip further ones change nothing: the normal form can be encoded, is written with the same bytes as the message, and decodes to itself. |
| DescriptorFacts.DescriptorTree | web/src/generated/google/protobuf/descriptor.ts:2535-2663 | A `DescriptorProto` with everything below it, at any depth, comes back normalised from any place in any bytes, right up to its end; encoded again it gives the same bytes, and comes back as it is. |
| RoundTrip.DecodeConcatenation | web/src/generated/google/protobuf/descriptor.ts:2535-2663 | Two encodings back to back decode to an explicit merge: lists append, a written value replaces the earlier one whole. |
| Decoded.AnyCuttingDecodes | web/src/generated/google/protobuf/descriptor.ts:6642-6684 | A list of 32-bit integers cut in any way into packed and single records, with any other records between them, decodes to the whole list; every other property is what it is without the list. |
| Decoded.DecodeIsFold | web/src/generated/google/api/http.ts:504-598 | Every decode that does not throw, on any bytes, read a stream of whole records that make up the bytes it consumed and returns the fold of their effects; it leaves off at or behind its end, or before an end-group or zero tag. |
| Decoded.DecodeIsBounded | web/src/generated/google/api/http.ts:504-598 | On any bytes at all, decode builds at most one sub-message for every two bytes, and nests at most that deep. |
| Reencoded.DecodedCanBeEncoded | web/src/generated/google/protobuf/descriptor.ts:2535-2663 | Whatever decode returns, on any bytes, can be encoded again, in at most fifteen times those bytes and twenty more, as long as that fits 32 bits. |
| Reencoded.DecodedComesBack | web/src/generated/google/protobuf/descriptor.ts:5886-5981 | Whatever decode returns: encoded and decoded again it is the same message exactly when no double that `encode` may omit is minus zero. |
| DescriptorFacts.DescriptorComesBack | web/src/generated/google/protobuf/descriptor.ts:2143-6990 | So for all 33 messages of the file. |
| Combined.HttpComesBack | web/src/generated/google/api/http.ts:374-742 | Every message of the file that any bytes decode to comes back as it is. |
| Combined.AuthComesBack | web/src/generated/auth.ts:48-518 | Every message of the file that any bytes decode to comes back as it is. |
| DescriptorFacts.MinusZeroIsLost | web/src/generated/google/protobuf/descriptor.ts:5899-5901 | The nine bytes of an option holding minus zero decode to it; encoded and decoded again the option holds plus zero. |
| DescriptorFacts.FieldDefaults | web/src/generated/google/protobuf/descriptor.ts:3188-3344 | A field descriptor without label or type comes back with label 1 and type 1; one with any label or type keeps it. |
| DescriptorFacts.RangeDefaults | web/src/generated/google/protobuf/descriptor.ts:2938-3005 | Extension range options without verification state come back with verification 1; others keep theirs. |
| DescriptorFacts.IntListsInAnyCutting | web/src/generated/google/protobuf/descriptor.ts:2296-2331 | For `publicDependency`, `weakDependency`, and the path and span of a location: any mixture of packed and single records, among any other records, decodes to the whole list. |
| Combined.SessionsCombine | web/src/generated/auth.ts:127-157 | Two session responses back to back: a later token or user replaces the earlier one, the user whole. |
| Combined.RulesCombine | web/src/generated/google/api/http.ts:504-598 | Two rules back to back: bindings append, every other property written later replaces the earlier one. |
| Combined.RuleIsBounded | web/src/generated/google/api/http.ts:583-590 | Bytes that decode to a rule have at least two for each rule nested in it, at every depth. |
| Buffers.BinaryWriter.Join | web/src/generated/google/api/http.ts:489-491 | Appends the sub-message behind its length to what the matching fork had set aside. |
| Buffers.BinaryReader.Skip | web/src/generated/google/api/http.ts:595 | Moves exactly past one record, or throws where the wire format says so. |
| HttpCodec.EncodeCustomHttpPattern | web/src/generated/google/api/http.ts:684-692 | Only appends, restores the forks, and what it appends is the pure encoding. |
| HttpCodec.DecodeCustomHttpPattern | web/src/generated/google/api/http.ts:694-724 | Returns what the tables say and leaves the reader there, or throws exactly where they do. |
| HttpCodec.EncodeHttpRule | web/src/generated/google/api/http.ts:470-502 | Recursive writer with `fork` and `join`: only appends, restores the forks it was given, and what it appends is the pure encoding with correct length prefixes at every depth. |
| HttpCodec.DecodeHttpRule | web/src/generated/google/api/http.ts:504-598 | The recursive loop as written, on any bytes and any length, returns what the tables say or throws exactly where they do. |
| HttpCodec.EncodeHttp | web/src/generated/google/api/http.ts:379-387 | As for the rule. |
| HttpCodec.DecodeHttp | web/src/generated/google/api/http.ts:389-419 | As for the rule. |
| HttpCodec.HttpRuleNorm | web/src/generated/google/api/http.ts:454-467 | Every rule is its own normal form: an undefined and an empty optional string stay apart. |
| HttpCodec.HttpRuleSame | web/src/generated/google/api/http.ts:470-502 | Rules that look the same to the tables are the same. |
| HttpCodec.HttpRuleRoundTrip | web/src/generated/google/api/http.ts:470-598 | Writing a rule of any depth and reading it back, with any bytes before and after, gives exactly that rule and leaves the reader at its end. |
| HttpCodec.HttpRoundTrip | web/src/generated/google/api/http.ts:379-419 | The same for `Http`. |
| WireForms.CustomHttpPatternForm | web/src/generated/google/api/http.ts:684-692 | The bytes of the message, property by property, with the tags of the code. |
| WireForms.HttpRuleForm | web/src/generated/google/api/http.ts:470-502 | The bytes of a rule, property by property and at every depth: empty strings left out where the code leaves them out, the pattern and each binding behind its length. |
| WireForms.HttpForm | web/src/generated/google/api/http.ts:379-387 | The bytes of an `Http` message. |
| AuthCodec.EncodeUser | web/src/generated/auth.ts:193-213 | Only appends, and what it appends is the pure encoding. |
| AuthCodec.DecodeUser | web/src/generated/auth.ts:215-277 | Returns what the tables say, or throws exactly where they do. |
| AuthCodec.EncodeSessionResponse | web/src/generated/auth.ts:117-125 | Only appends, restores the forks, and what it appends is the pure encoding. |
| AuthCodec.DecodeSessionResponse | web/src/generated/auth.ts:127-157 | Returns what the tables say, or throws exactly where they do. |
| AuthCodec.EncodeListUsersResponse | web/src/generated/auth.ts:489-494 | Only appends, restores the forks, and what it appends is the pure encoding. |
| AuthCodec.DecodeListUsersResponse | web/src/generated/auth.ts:496-518 | Returns what the tables say, or throws exactly where they do. |
| AuthCodec.UserRoundTrip | web/src/generated/auth.ts:193-277 | Every user comes back exactly, with any bytes around it. |
| AuthCodec.SessionResponseRoundTrip | web/src/generated/auth.ts:117-157 | Every session response does, with its user or without. |
| AuthCodec.ListUsersResponseRoundTrip | web/src/generated/auth.ts:489-518 | Every list of users does, in order. |
| WireForms.UserForm | web/src/generated/auth.ts:193-213 | The bytes of a user, property by property, with the tags of the code. |
| WireForms.SessionResponseForm | web/src/generated/auth.ts:117-125 | The bytes of a session response, the user behind its length. |
| WireForms.ListUsersResponseForm | web/src/generated/auth.ts:489-494 | The bytes of a list of users, in order. |
| DescriptorCodec.EncodeUninterpretedOption | web/src/generated/google/protobuf/descriptor.ts:5886-5909 | Only appends, restores the forks, and what it appends is the pure encoding. |
| DescriptorCodec.DecodeUninterpretedOption | web/src/generated/google/protobuf/descriptor.ts:5911-5981 | Returns what the tables say, or throws exactly where they do, an integer no number holds included. |
| DescriptorCodec.UninterpretedOptionRoundTrip | web/src/generated/google/protobuf/descriptor.ts:5886-5981 | Comes back normalised: undefined scalars become their defaults, a zero double plus zero, all else is kept. |
| WireForms.UninterpretedOptionForm | web/src/generated/google/protobuf/descriptor.ts:5886-5909 | The bytes of an option, property by property: integers in two's complement unless zero, the double unless it is one of the two zeros. |
| WireForms.NamePartForm | web/src/generated/google/protobuf/descriptor.ts:6068-6076 | The bytes of a name part. |
| DescriptorCodec.EncodeLocation | web/src/generated/google/protobuf/descriptor.ts:6619-6640 | Only appends; both integer lists are packed between `fork` and `join`, even when empty. |
| DescriptorCodec.DecodeLocation | web/src/generated/google/protobuf/descriptor.ts:6642-6716 | Packed and single integers in any mixture, as the tables say, or throws exactly where they do. |
| DescriptorCodec.LocationRoundTrip | web/src/generated/google/protobuf/descriptor.ts:6619-6716 | Every location comes back, undefined comments as empty ones. |
| WireForms.LocationForm | web/src/generated/google/protobuf/descriptor.ts:6619-6640 | The bytes of a location, with both packed lists behind their lengths. |
| Statements.ReadInts | web/src/generated/google/protobuf/descriptor.ts:6656-6660 | The inner loop of a packed list reads what the packed run holds, or throws. |
| JsonRoundTrip.SpelledReads | web/src/generated/google/api/http.ts:600-621 | Every JSON spelling of a message, with each property at each depth under either of its names, null or missing when it has its default, and any other properties of any name besides, parses to the normal form. |
| JsonRoundTrip.JsonRoundTrips | web/src/generated/google/api/http.ts:600-656 | `fromJSON(toJSON(m))` is the normal form of `m`, also with all keys renamed to snake_case at every depth. |
| JsonRoundTrip.WireAndJsonAgree | web/src/generated/google/api/http.ts:504-656 | Over the wire and over JSON the same message comes back. |
| JsonRoundTrip.CamelCaseWins | web/src/generated/google/api/http.ts:610-619 | Beside a camelCase property that counts, the snake_case one can hold anything. |
| JsonRoundTrip.ParsedIsFixed | web/src/generated/google/api/http.ts:600-656 | Whatever `fromJSON` returns, from any JSON, comes back from its JSON form, and from its encoding if its lengths fit. |
| JsonForms.HttpRuleJson | web/src/generated/google/api/http.ts:600-656 | Every rule of any depth comes back from its JSON form, in either spelling. |
| JsonForms.UserJson | web/src/generated/auth.ts:279-323 | Every user does. |
| JsonForms.HttpRuleToJson | web/src/generated/google/api/http.ts:623-656 | The growing object is the JSON form, down to the nested rules. |
| JsonForms.UserToJson | web/src/generated/auth.ts:302-323 | The growing object is the JSON form. |
| JsonKeys.UserReads | web/src/generated/auth.ts:279-300 | On any JSON the tables read what the file's `fromJSON` reads key by key, and throw when it throws. |
| JsonKeys.UserByKeys | web/src/generated/auth.ts:279-300 | Each property of a parsed user by its literal keys: camelCase if set, else snake_case if set, else empty; the flag is false exactly for nothing, null, false, zero and the empty string. |
| JsonKeys.SessionResponseReads | web/src/generated/auth.ts:159-164 | The same for a session response and its user. |
| JsonKeys.ListUsersResponseReads | web/src/generated/auth.ts:520-522 | The same for a list of users, which is empty for anything that has no array there. |
| JsonKeys.RequestsByKeys | web/src/generated/auth.ts:84-92 | The ID token of a login request by either of its keys, and the username of an update by its own. |
| JsonKeys.CustomHttpPatternReads | web/src/generated/google/api/http.ts:726-731 | The same for a custom pattern. |
| JsonKeys.HttpRuleReads | web/src/generated/google/api/http.ts:600-621 | The same for a rule, at every depth; it throws exactly for null or a missing value in its place or among its bindings. |
| JsonKeys.HttpRuleByKeys | web/src/generated/google/api/http.ts:600-621 | Each property of a parsed rule by its literal keys; the bindings are those of the first of the two keys that holds an array. |
| JsonKeys.HttpReads | web/src/generated/google/api/http.ts:421-430 | The same for `Http`. |
| JsonKeys.HttpByKeys | web/src/generated/google/api/http.ts:421-430 | Each property of a parsed `Http` message by its literal keys. |
| Usernames.GenerateUsername | internal/auth/usernames.go:8-41 | Every draw gives a username the pattern allows, of at most 23 characters. |
| Usernames.EveryCombination | internal/auth/usernames.go:37-41 | The draws give exactly the 77 adjectives, each with the 78 nouns and the numbers from 10 to 999. |
| Tokens.ExpiryWindow | internal/auth/auth.go:68-82 | A token expires at most 24 hours after its issue, and less than a second before that, since its expiry is a whole second (section 4.1.4 of RFC 7519). |
| Tokens.AcceptedUntil | internal/auth/auth.go:40-82 | A token issued at some time is accepted exactly while the second of the clock is before the second a day after it: by `GetCurrentUser` and `UpdateProfile` with its claims, by `ListUsers` if it says admin; so at every time up to a day less a second later, and at none from a day later on. |
| Tokens.NotAccepted | internal/auth/interceptor.go:78-101 | Anything but a token of the server is answered with Unauthenticated by all three. |
| Tokens.PublicRpcsRun | internal/auth/interceptor.go:36-62 | The six public RPCs run without a token, and with any. |
| Accounts.Insert | internal/db/db.go:97 | An insert that the unique indexes admit keeps the table's constraints. |
| Accounts.SetUsername | internal/db/db.go:138-156 | An update that the unique index admits keeps the table's constraints. |
| Accounts.UsernameRefused | internal/db/db.go:138-156 | The update is refused exactly when another row holds the name; clearing one never is, and only that row changes. |
| Accounts.InsertRefused | internal/db/db.go:87-97 | The insert is refused exactly when the id or the subject is there; otherwise it adds that one row. |
| Runs.TableInvariant | internal/db/db.go:23-37 | In every run and every interleaving of statements: one row per Google subject, no username twice, every username within the pattern. |
| Runs.RowsStay | internal/db/db.go:81-156 | No row disappears or changes its subject, whatever calls and the operator do. |
| Runs.SubjectKeepsId | internal/db/db.go:81-115 | Whenever a subject appears again in a run it has the same id. |
| Runs.OnlyTheOperatorFlips | internal/auth/service.go:67-144 | At any later moment the admin flag of a row is what the operator last wrote: no call of any RPC changes it. |
| Runs.AdminsAreMade | README.md:134-141 | An admin was one from the start or was made one by the operator: no login makes one. |
| Provenance.RequestProvenance | internal/auth/interceptor.go:59-101 | In every run, whenever the interceptor lets a non-public handler run, whatever that then does, it is for a token that a login of the same Google subject issued less than 24 hours before, with the admin flag its row had when that login read it; `ListUsers` only if the flag was set. |
| Provenance.TokenProvenance | internal/auth/service.go:67-92 | The same for every handler between its first statement and its last, of the token it started with. |
| Provenance.ListingNeedsAnAdmin | internal/auth/interceptor.go:51-74 | `ListUsers` reads the table only for a row that was an admin when its login read it. |
| Provenance.CurrentAtIssue | internal/auth/service.go:78-83 | A token says at its issue what its row says at that moment exactly when the operator has not, since the login's read, last written the other flag. |
| Stale.WithinDayExactly | internal/auth/service.go:67-92 | A row that was an admin when it was read was one within the day before a later step exactly when the operator had not last cleared its flag by the first moment of that day, or set it since. |
| Stale.ListingWithinDay | internal/auth/interceptor.go:51-74 | That is exactly when `ListUsers` starts for someone who was an admin less than a day before; it always does if the operator had not last cleared the flag between the read and the issue. |
| Stale.AuthorityCanBeStale | internal/auth/service.go:78-83 | For every wait there is a run in which `ListUsers` starts for a row that has not been an admin for that long. |
| Database.UpsertKeepsTheRest | internal/db/db.go:81-115 | `UpsertUser` returns the stored row of the subject, with each profile field that Google fills in and the others as they were, leaves flag and creation time, makes a new row without flag and with the present time, and changes no other row. |
| Database.UpsertNames | internal/db/db.go:102-115 | It keeps a username that is there; otherwise it gives the first candidate no other row holds, or none if all are held. |
| Database.DB.UpdateUsername | internal/db/db.go:138-156 | Sets or clears the username of one row and returns the row; a taken name or an unknown id leaves the table unchanged. |
| Database.DB.FirstOrCreate | internal/db/db.go:93-100 | Refreshes the row of the subject or makes it, and returns it as stored. |
| Database.DB.UpsertUser | internal/db/db.go:81-115 | The retry loop does what the specification without tries says. |
| Database.DB.ListUsers | internal/db/db.go:127-133 | Every account once, oldest first. |
| Alone.LoginAlone | internal/auth/service.go:67-92 | Run without interference and faults, the statements of a login do to the table exactly what the specification of `UpsertUser` says, and reach the token with its row. |
| Alone.ProfileAlone | internal/auth/service.go:96-116 | So do the statements of a profile update: the new row, a taken name or an unknown id. |
| Alone.WholeLoginAlone | internal/auth/service.go:67-92 | A login alone, from the request to the reply: the session of that row, with a token issued at that time. |
| Alone.WholeUpdateAlone | internal/auth/service.go:96-116 | A profile update alone, from the request to the reply, with every outcome. |
| Alone.WholeViewsAlone | internal/auth/service.go:119-144 | `GetCurrentUser` and `ListUsers` alone: the row of the token, or the whole table, unchanged. |
| Alone.TurnedDown | internal/auth/interceptor.go:59-74 | A request the interceptor turns down is answered with its code and touches nothing. |
| Alone.FaultsInOneStatement | internal/db/db.go:81-156 | A refused statement leaves the table, one whose answer is lost leaves it as with the answer, and a call answered after either has failed. |
| Server.AuthServer.LoginWithGoogle | internal/auth/service.go:67-92 | Every outcome with a working store, with the table and the set of tokens after it; field by field, the profile is that of its row, with what Google says where it says something, and the token carries the id and the flag of the profile. |
| Server.AuthServer.UpdateProfile | internal/auth/service.go:96-116 | Every outcome with a working store, InvalidArgument and AlreadyExists each exactly when: the empty name, and 3 to 30 letters, digits and underscores that no other row holds, are accepted. A success changes only the username of the caller, a failure nothing, and the reply is the row of the caller, field by field. |
| Server.AuthServer.GetCurrentUser | internal/auth/service.go:119-131 | The profile of the row the token names, field by field. |
| Server.AuthServer.ListUsers | internal/auth/service.go:134-144 | Every account once, oldest first, each entry with the fields of its own row. |
| Server.UpdateThenView | internal/auth/service.go:96-131 | What a successful update returned is what the next `GetCurrentUser` with the same live token returns. |
| Server.LoginThenView | internal/auth/service.go:67-131 | The profile a login replies is what `GetCurrentUser` shows with its token, if nothing has followed, for a day less a second, and not from a day later on. |
| LoadTest.BooksBalance | cmd/loadtest/main.go:53-83 | In every interleaving of any number of workers, requests are errors, merged and unmerged latencies, and workers between the two counters; no latency is lost or doubled, and at most one worker holds the lock. |
| LoadTest.AfterTheJoin | cmd/loadtest/main.go:85-90 | After the join the list holds exactly the latencies of the requests of the run that succeeded, and the two counters are its requests and its failures. |
| LoadTest.PercentilesOrdered | cmd/loadtest/main.go:100-109 | For a list that is not empty every percentile index is in range, and the percentiles are in order up to the maximum. |
| LoadTest.PercentileRank | cmd/loadtest/main.go:100-109 | Before the p-th percentile stand p hundredths of the latencies, rounded down, none of them larger; none behind it is smaller. |
| LoadTest.WorkerMerges | cmd/loadtest/main.go:60-67 | A worker past its deadline that gets the lock appends its latencies and frees the lock. |
| LoadTest.PercentInRange | cmd/loadtest/main.go:112-117 | The error share is that many hundredths of the total, from 0 to 100, 100 exactly when all requests failed, 0 exactly when none did. |

## Left out

- Strings: UTF-8 encoding and checking, and the base64 form of byte arrays in JSON, are library behaviour.
- Doubles: only the comparison with zero and the eight bytes matter here.
- `fromPartial` and `create` of the generated messages: copies with defaults.
- The JSON forms of `descriptor.ts`, with its enum names and numbers; JSON covers messages of strings, flags and sub-messages.
- JSON numbers are integers here; what matters of a number is whether it is zero.
- `String(x)` of JSON values that are not strings is a parameter; strings are kept as they are.
- `DescriptorProto` and its relatives are on values, over the tables; their writer and loop are not written out as methods, unlike those of `http.ts`, `auth.ts`, `UninterpretedOption` and `SourceCodeInfo_Location`, so for them the model has no update in place.
- Server.AuthServer.LoginWithGoogle: the Internal replies of a failing store or signature are in `Sessions`, where any statement may fail; the class has a working store.
- Server.AuthServer.UpdateProfile: the Internal reply of a failing store is in `Sessions` only.
- Server.AuthServer.ListUsers: the Internal reply of a failing store is in `Sessions` only.
- LoadTest.PercentInRange: exact reals in place of 64-bit floating point.
- Reencoded.DecodedCanBeEncoded: bounds the input so that the second encoding fits the 32 bits of its lengths, and messages to two packed properties, which no message of the three files exceeds.
- JsonRoundTrip.WireAndJsonAgree: asks for lengths below 2^32, as the wire does; the JSON results alone do not.
- `greeter.ts`, and `pb/`, the generated Go code: the same shapes again, or a runtime that is not shown.
- The fields `created_at` and `updated_at`: creation time orders the list of users, update time is left out.
- The signature algorithms, the key download and the checks of Google's ID token.
- A change of the signing secret, and tokens made outside the server by `scripts/mint-cluster-token.sh`: the runs have only tokens the server issued.
- Sessions.Step: deletes rows by no action, as the server has none; rows deleted by hand are not in the runs.
- The store: `FirstOrCreate` is a select followed by an insert or an update, with the unique indexes enforced by the store; other isolation effects are left out.
- Error texts, logging, the Echo handler, the web page and the deployment files.
- The load test's printing, its rates, and the sort itself, which is the library's.
