# Verified model of protoc-gen-mcp

This project models the parts of protoc-gen-mcp that carry its correctness and proves
what they are for.

* **JSON Schema compiler** (`internal/schema/schema.go`). Protobuf message graphs, cyclic
  or not, become finite JSON Schema documents. `JsonSchema` defines when a document accepts
  a value, `ProtoGraph` when a value is ProtoJSON for a message, `Nullability` and `Oneofs`
  the two encodings, `Rendering` what it is for a schema to render a field, `SchemaBuilder`
  the builder with its `building`, `built` and `defs` tables, `SchemaMeaning` and
  `SchemaCompiler` the theorem that the document and the direct reading agree, and
  `SchemaRefusals` where they do not. `RequiredFields` and `SchemaLeaves` spell out which fields
  are required and what the schemas of single values accept.
  `ExampleValues` says which examples are made up, `ExampleMeaning` what they are worth,
  `ExampleForms` what they look like, `Examples` is the example maker.
* **Resumable event streams** (`mcpruntime/http_stream.go`, `mcpruntime/http.go`).
  `EventStream` and `Sessions` are the state machines, with a history of all publications;
  each mutex section is one step. `MessageStreams` and `SessionStreams` are the Go objects,
  each method proved against its step. `Connection` is one GET, `Broadcast` one notification
  and `PostResponse` one POST, each among everything else that happens in the session, and
  `Server` is all of them together, with the proof that each one alone is such a run.
  `Deliveries`, `Resumptions` and `LiveConnections` say who gets which event, and `Closings` that
  handlers come to their end and streams are closed. They
  implement "Resumability and Redelivery" and "Multiple Connections" of the Streamable HTTP
  transport in MCP specification 2025-11-25.
* **Printers and parsers**. `Sse` has the framing of `mcpruntime/sse.go` and a reader after
  section 9.2.6 of the WHATWG HTML standard; `UriTemplate` has `ExtractURIParams` of
  `mcpruntime/resource.go` against template expansion, `UriPlaceholders` what counts as a
  placeholder.
* **Python type graphs** (`internal/codegen/python_type_collect.go`,
  `internal/codegen/generator.go`). `PythonTypes` has descriptors and their translation,
  `PythonCollector` the depth-first collector, `PythonGraphs` its starting points,
  `TypeGraphs` the merge, `CrossFile` the pass over all generated files. `PythonDescriptors` says
  what types and graphs keep of the descriptors, `NameConflicts` why a collection fails,
  `GeneratedFiles` what ends up in which module, `ClassNames` and
  `SharedNames` the class names that come out of it, and `BorrowedTypes` two files one of which
  holds a message of the other.
* **Python mappers** (`internal/codegen/render_python_mappers.go`). `PythonMappers` says what
  `to_pb` and `from_pb` are to compute; `MapperRoundTrip`, `MapperFill` and `MapperDepth` prove
  that the two undo each other, what a message becomes, and when `from_pb` ends.
  `PythonModules` says when Python can load the emitted text, `PythonScopes` and
  `GeneratedMappers` interpret it, with local variables and with classes looked up by name,
  `MapperPrograms` statement by statement. `MapperAgreement`, `MapperNames`, `MapperValues` and
  `MapperEnv` prove exactly when the text computes what it is to compute, `MapperDefaults` what
  becomes of dataclasses left at their defaults. `MapperFields` and `MapperPresence` say what
  becomes of each field, `HarmlessNames` which names matter, `SnakeNames` how helpers are called.

`Wrappers`, `Digits`, `Sequences`, `Reachability` and `WellKnownTypes` hold what several
modules share. `dafny verify dfyconfig.toml` checks the whole project.

## Where the code does not do what one might expect

* An optional message field that is written in place and whose message has a required oneof
  refuses null; written as a reference it accepts null (`SchemaCompiler.CompileChoice`,
  `SchemaCompiler.RequiredOneofRefusesNull`). Everywhere else document and message agree
  exactly (`SchemaMeaning.DocumentMeaning`, `SchemaRefusals.DocumentExactIff`).
* An enum whose values are all hidden is not constrained at all, because an empty `enum`
  keyword is omitted; a hidden value may be offered as an example
  (`Examples.HiddenValueIsExemplified`); and a Python enum with a hidden zero makes `from_pb`
  raise on every message that leaves the field out (`MapperDepth.EmptyMessageReadable`).
* Examples need not be valid: a required field whose message has nothing to show is left out,
  a required oneof is when its first member has nothing to show, and a message inside itself
  shows none of its oneofs (`Examples.RequiredFieldLeftOut`, `Examples.FirstMemberHidesOthers`,
  `Examples.InnerFrameSkipsOneofs`). `Examples.ExampleValidates` says exactly when an example
  is valid.
* A notification is lost when the session is closed between the choice of a stream and the
  publication (`Broadcast.BroadcastLost`).
* A client that resumes misses what is published between the section that takes its replay and
  the one that subscribes, and nothing else (`LiveConnections.NothingInTheGap`).
* The merge of type graphs compares type names only, not the class names of oneofs, so two
  classes of a generated module can have one name, although collection in one go would report
  the clash (`SharedNames.CollectShop`, `ClassNames.DistinctIffDisjoint`); the earlier class can
  then no longer be made (`MapperEnv.ClassesFound`, `MapperEnv.LostVariantNeverReads`).
* The merge does not look at import aliases either, which collection in one go checks
  (`TypeGraphs.MergeAliases`, `TypeGraphs.CollectedAliasesApart`).
* Generated modules spell the names of fields, oneofs, enum values and messages as they are. A
  field called `from`, or any other keyword, leaves a module that does not parse, so no mapper of
  that file works, nor any of a file that imports it (`PythonModules.KeywordNeverLoads`,
  `MapperEnv.TransferNeverComesBack`, `BorrowedTypes.KeywordStopsBoth`). A module does not load
  either when a member called `field` that has a default stands before a list or a map
  (`PythonModules.ShadowNeverLoads`), or when a file with a service has an enum called `Protocol`
  (`PythonModules.ProtocolNeverLoads`).
* A message called `UNSET` takes that name from the module's own UNSET
  (`MapperEnv.UnsetKeptIff`, `MapperNames.TakenUnsetNeverReads`). A list or map called `UNSET`
  takes the place of later defaults, and a class body rewrites names that begin with two
  underscores: the mappers of such a type never work (`MapperNames.LostFieldsNeverWork`).
* The emitted `from_pb` uses oneof names as local variables. A oneof called `message` or `UNSET`
  makes it raise always, one called `x_case` before one called `x` is overwritten, and one
  called `list` shadows the built-in function (`MapperNames.CapturedNeverReads`,
  `MapperNames.OverwrittenNeverRight`, `MapperNames.ShadowedListNeverReads`).
* The mappers of an imported type call its oneof classes by bare names that the importing
  module does not have (`MapperEnv.ImportedOneofNeverReads`). They also compare with their own
  `UNSET`, not with the one in the imported dataclass's defaults, so a dataclass of another file
  that is left at its defaults makes `to_pb` raise as soon as it has a oneof or a field that can
  be left out (`MapperDefaults.LeftAloneRaises`); where the value of such a field is never looked
  at, the field is set although it was left out (`MapperDefaults.ForeignUnsetIsSet`).
  `BorrowedTypes.CollectClub` is a pass over two such files.
* A file called `any.proto`, or like another of the library's, has a protobuf module that hides
  the library's from the helpers of well-known types (`GeneratedMappers.KnownModuleKept`).
* A carriage return in event data does not survive SSE framing (`Sse.CarriageReturnIsLost`).
* A repeated placeholder name keeps its last value only (`UriTemplate.RepeatedNameLosesURI`).
* The check for an empty parameter value after the match can never fire, and reopening a
  closed listen stream can never happen, since streams in the map are open
  (`Sessions.SessionRun`).

## Reading the model

* `Validates` follows a reference at most as often as there are targets before it reaches a
  part of the value, so a chain of references that never ends accepts nothing.
* Conformance reads the formatted strings of ProtoJSON (64-bit integers, bytes, timestamps,
  field masks) as any string, and 32-bit integers, signed or not, as any integer, since the
  generated schemas constrain no more than that.
* Kinds that share a branch in the source (fixed, zig-zag) are one kind here. Names that the
  generator derives from descriptor names by string rewriting are attributes of descriptors,
  except for the mappers' helper functions, whose names `PythonScopes.SnakeCase` makes.
* `Fails` says that two types reachable from the roots lay claim to one name, or that one
  refers to an unsupported well-known type; it does not depend on the order of collection.
* In the mappers a failed conversion is `None`, for any exception, and `depth` is Python's
  recursion limit. Scalars are opaque values of their type with a default. A call of a class
  other than the one meant counts as failed, whether or not Python would let it pass, and so
  does a use of UNSET when a class has taken that name.
* `PythonModules.Loads` looks at the modules of one run: a module that is imported and not among
  them is not there. Protobuf's own modules are taken to load.
* `Reads...` and `Writes...` in `MapperAgreement` are the conditions on names: they look at
  whether the module loads, at the names in a type, at what the module's names stand for, and at
  which fields are set. `ReadsQuietly` and `WritesQuietly` in `MapperNames` are the same for all
  values of a type at once; types of which they hold are called harmless below.
* Scalars, enums, references and well-known types make up `TypeRef`; `ScalarRef(Unknown)` is
  what a group would get, which proto3 does not have.

## Model

| member | source | states |
|---|---|---|
| `SchemaCompiler.GenerateMessageSchema` | internal/schema/schema.go:97-120 | Fails exactly when there is no message or something unsupported is reachable from it; otherwise the document it returns renders the whole message graph, on cyclic graphs too, and defines only messages that are on a cycle |
| `SchemaBuilder.Builder.GenerateMessageSchema` | internal/schema/schema.go:136-229 | Whatever is under construction, cached or already a definition, the result renders the message, by reference or in place; `building` is as before, nothing found earlier is lost, no message is built twice |
| `SchemaBuilder.Builder.BuildNew` | internal/schema/schema.go:160-229 | A message that is neither open nor finished is rendered in place, or something below it is unsupported; `building` is as before and nothing found earlier is lost |
| `SchemaBuilder.Builder.BuildMessage` | internal/schema/schema.go:163-226 | The object schema of a message has one property per field, each rendering its field, and the frame that is open stays the only new one |
| `SchemaBuilder.Builder.EnsureDefinition` | internal/schema/schema.go:571-585 | Every message under construction other than the root has a definition, at worst an empty placeholder, and existing definitions stay |
| `SchemaBuilder.Builder.FillDefinition` | internal/schema/schema.go:587-602 | A placeholder is replaced by the finished schema; the root and messages that nobody referred to get no definition |
| `SchemaBuilder.Builder.GenerateFieldSchema` | internal/schema/schema.go:232-293 | Renders the field before any widening, lists by their items, or fails because something below it is unsupported |
| `SchemaBuilder.Builder.GenerateProperty` | internal/schema/schema.go:183-199 | As a property of its message a field is rendered nullable unless it is required |
| `SchemaBuilder.Builder.GenerateMapFieldSchema` | internal/schema/schema.go:295-357 | Renders a map field by its key pattern and value schema; fails only on an entry that has no JSON form |
| `SchemaBuilder.Builder.GenerateSingularSchema` | internal/schema/schema.go:481-561 | Renders one value of the field kind, following messages into the builder |
| `SchemaCompiler.CompiledIsSupported` | internal/schema/schema.go:97-120 | A finished document exists only for graphs in which nothing unsupported is reachable: the success condition is exact |
| `SchemaCompiler.ReferencesResolve` | internal/schema/schema.go:142-161 | Every reference in the root or in a definition names a definition, and no placeholder is left |
| `SchemaMeaning.DocumentMeaning` | internal/schema/schema.go:136-230 | For every graph and every JSON value: the value validates against the generated document if and only if it conforms to the message in the direct recursive reading and nowhere in it does null stand for an optional message that has a required oneof at a place where the document writes that message out |
| `SchemaMeaning.DocumentExact` | internal/schema/schema.go:136-230 | When no optional field that the root leads to has a required oneof, the document validates exactly the messages |
| `SchemaRefusals.DocumentExactIff` | internal/schema/schema.go:136-230 | The document validates exactly the messages if and only if no way along fields of possible messages, through what the document writes for them, ends at an optional field for which it writes out a message with a required oneof |
| `SchemaRefusals.RefusalAtEnd` | internal/schema/schema.go:136-230 | At the end of every such way stands a message that conforms and is refused |
| `SchemaRefusals.WayToRefusal` | internal/schema/schema.go:136-230 | Every message that conforms and is refused has such a way in it |
| `SchemaRefusals.OptionalMayBeNull` | internal/schema/schema.go:688-737 | In a possible message null can stand for any optional field that is no member of a required oneof |
| `RequiredFields.RequiredKeyword` | internal/schema/schema.go:183-199 | Wherever a message is written out, `required` lists exactly the fields in no oneof that are neither lists nor maps and have no `optional` keyword, of any kind, in the order of declaration |
| `RequiredFields.LeftOutIff` | internal/schema/schema.go:1111-1123 | An object that such a schema accepts stays accepted without one of its fields, outside required oneofs, if and only if the field is in a oneof, a list, a map, or marked optional |
| `RequiredFields.RequiredIsThere` | internal/schema/schema.go:188-193 | A required field is in every accepted object, and null there only if null is a value of its type |
| `RequiredFields.DocumentRequires` | internal/schema/schema.go:183-199 | The same of the document: an approved object loses its approval with a field exactly if the field is required |
| `SchemaMeaning.DocumentBounds` | internal/schema/schema.go:136-230 | Without reference to the document: what validates conforms in the lenient reading of null, and what conforms in the strict reading validates |
| `SchemaMeaning.ReadingsAgree` | internal/schema/schema.go:136-230 | The two readings of null differ only where an optional message field that the message leads to has a required oneof |
| `SchemaMeaning.KindMeaning` | internal/schema/schema.go:481-561 | Any rendering of a kind, in place or by reference, accepts exactly what the kind allows, except for the nulls that it refuses |
| `SchemaMeaning.FieldMeaning` | internal/schema/schema.go:232-325 | The same for singular, list and map fields, elementwise |
| `SchemaMeaning.InlineMeaning` | internal/schema/schema.go:165-229 | An object schema written in place accepts exactly the objects of its message, except for refused nulls, and null itself when nothing is required of its oneofs |
| `SchemaMeaning.ReferenceMeaning` | internal/schema/schema.go:142-161 | A reference to the root or to a definition accepts what the message it names accepts, except for nulls refused inside |
| `SchemaMeaning.WellKnownMeaning` | internal/schema/schema.go:621-686 | The fixed schema of each supported well-known type accepts exactly the values that a schema of its keywords can tell apart from its ProtoJSON form: any string where that form is a formatted string, except for Duration |
| `SchemaLeaves.Scalars` | internal/schema/schema.go:487-561 | What the schema of each scalar and enum accepts, value by value: whole numbers for 32-bit kinds, strings for 64-bit ones, the three float names, the names of the enum values that are shown, or any string if none is |
| `SchemaLeaves.MapKeys` | internal/schema/schema.go:327-357 | What a map takes for keys: decimal numbers without leading zeros, zero included, with a minus if the kind is signed, the two truth values, or any string |
| `SchemaLeaves.Durations` | internal/schema/schema.go:634-638 | The duration schema accepts exactly the ProtoJSON spellings: a sign, digits, up to nine after a point, an s |
| `SchemaLeaves.KnownNames` | internal/schema/schema.go:621-686 | The seventeen types that are known, each under its full name and no other |
| `SchemaLeaves.Marks` | internal/schema/schema.go:621-686 | Timestamps carry their format and bytes their encoding, and nothing else carries either |
| `SchemaCompiler.RenderingChoiceIsFree` | internal/schema/schema.go:142-161 | Writing a message in place or referring to it accepts the same values, except for a null that one of the two refuses |
| `SchemaCompiler.RequiredOneofRefusesNull` | internal/schema/schema.go:688-737 | Counterexample: written in place, an optional message with a required oneof refuses the null that stands for its absence |
| `SchemaCompiler.ChoiceDocumentOnly` | internal/schema/schema.go:571-602 | For the graph of the counterexample there is only one document that defines nothing but messages on cycles |
| `SchemaCompiler.CompileChoice` | internal/schema/schema.go:97-120 | So the compiler returns the document that refuses the null |
| `SchemaCompiler.NullableExact` | internal/schema/schema.go:688-737 | Widening a schema of the compiler adds null to what it accepts and nothing else, if and only if it is not a message with a required oneof that is written in place |
| `Nullability.NullableMeaning` | internal/schema/schema.go:688-737 | For every schema with at most one of `type` and `types`: other values are judged as before, and null is judged by the keywords that the widening leaves |
| `Nullability.NullableIdempotent` | internal/schema/schema.go:688-737 | Widening twice is widening once, for every schema |
| `Nullability.Nullable` | internal/schema/schema.go:688-737 | The branch order of the widening, as a method, against its specification |
| `Nullability.WidenedForm` | internal/schema/schema.go:688-737 | Form by form what becomes of a schema: unchanged if it says nothing, one of two alternatives if it has an enum or nothing to widen, else null among its types or, once, among its alternatives |
| `Nullability.AppendUniqueStrings` | internal/schema/schema.go:1050-1071 | Keeps the first occurrence of each string, in order |
| `Nullability.DistinctFixed` | internal/schema/schema.go:1050-1071 | A list without repetition is left as it is |
| `Rendering.NullableRendering` | internal/schema/schema.go:688-737 | The widened schema of a kind is the nullable rendering of that kind, so inline, referenced and leaf schemas agree |
| `Oneofs.GenerateOneofConstraints` | internal/schema/schema.go:359-450 | The nested loops build one oneOf group per oneof, in order of first members |
| `Oneofs.OneofConstraintsMeaning` | internal/schema/schema.go:359-450 | All groups together accept a value exactly when each optional oneof has at most one selected member and each required one exactly one |
| `Oneofs.GroupMeaning` | internal/schema/schema.go:385-447 | One group, of any size: at most one member selected, and one if required |
| `Oneofs.BranchesExclusive` | internal/schema/schema.go:396-446 | No value satisfies two branches of a group |
| `Oneofs.SelectedMeaning` | internal/schema/schema.go:452-462 | The required-and-not-null encoding accepts exactly the objects that have the property with a value other than null |
| `Oneofs.NullPassesOneofs` | internal/schema/schema.go:359-450 | A value that is no object passes exactly when no oneof is required |
| `Examples.ExampleMaker.AutoMessageExample` | internal/schema/schema.go:925-980 | Ends on every message graph, with at most five productive frames per message, restores the counters, and returns exactly the specified example |
| `ExampleValues.MessageExampleExact` | internal/schema/schema.go:925-980 | That example sets exactly the shown fields that have examples: first members of oneofs, and inside another frame of the message required fields only; there is none exactly when nothing is set |
| `ExampleForms.ShownFields` | internal/schema/schema.go:925-980 | A message shows a field exactly if no earlier field has its oneof, the field has an example, and, inside another frame of the message, it is single and not optional; with five frames open it shows nothing |
| `ExampleMeaning.HasExampleIffFertile` | internal/schema/schema.go:925-980 | A message has an example if and only if a path of shown fields leads from it to a field that needs no message |
| `ExampleMeaning.MessagePlausible` | internal/schema/schema.go:925-980 | An example is right in all it says: declared properties only, each plausible, at most one member of each oneof |
| `ExampleMeaning.ExampleSetsRequired` | internal/schema/schema.go:925-980 | It sets every required field if and only if each of them leads to something to show |
| `ExampleMeaning.ExamplePassesOneofs` | internal/schema/schema.go:359-450 | It passes the generated oneof constraints if and only if each required oneof has a shown member that leads to something to show |
| `ExampleMeaning.ConformsIffSound` | internal/schema/schema.go:925-980 | It is a message, in either reading of null, if and only if every frame in it shows its required fields and oneofs and no hidden enum value is chosen |
| `Examples.ExampleValidates` | internal/schema/schema.go:205-227 | It validates against the compiled document of its own message if and only if the same holds |
| `Examples.FirstMemberHidesOthers` | internal/schema/schema.go:942-955 | Counterexample: when the first member of a required oneof has no example, none of its members is in the example |
| `Examples.RequiredFieldLeftOut` | internal/schema/schema.go:942-966 | Counterexample: a required field whose message has no example is left out |
| `Examples.InnerFrameSkipsOneofs` | internal/schema/schema.go:955-959 | Counterexample: a message inside itself shows no member of its required oneof |
| `Examples.ExampleMaker.AutoFieldExampleValue` | internal/schema/schema.go:982-1011 | Exactly the specified example of the field, counters restored |
| `Examples.ExampleMaker.AutoSingularExamples` | internal/schema/schema.go:782-873 | Exactly the specified examples of the kind, well-known types included |
| `Examples.ExampleMaker.AutoMapExample` | internal/schema/schema.go:875-923 | Exactly the specified entry, or none |
| `Examples.AutoFieldExamples` | internal/schema/schema.go:754-780 | All examples of a field are plausible for it, and there are some if and only if the field leads to something to show |
| `ExampleMeaning.EnumExampleConforms` | internal/schema/schema.go:810-819 | An enum example is accepted by the schema if and only if the value chosen, the first with a number other than zero or else the first, is not hidden, or all are |
| `Examples.HiddenValueIsExemplified` | internal/schema/schema.go:810-819 | Counterexample: a hidden value is offered as the example although the schema refuses it |
| `ExampleForms.EnumChoice` | internal/schema/schema.go:810-819 | The example of an enum names its first value with a number other than zero, or the first value |
| `ExampleForms.LiteralsFit` | internal/schema/schema.go:782-820 | Every literal example has the narrow ProtoJSON form of its kind, in range: decimal 64-bit strings, base64, 32-bit numbers |
| `ExampleForms.FieldForms` | internal/schema/schema.go:875-1011 | A list shows one item and a map one entry, under a key of its key kind, each the first example of its values |
| `EventStream.BufferIsTail` | mcpruntime/http_stream.go:48-68 | In every reachable state the buffer is the last min(seq, maxBuf) events of the full history, numbered consecutively up to seq |
| `EventStream.ReplayExact` | mcpruntime/http_stream.go:97-123 | Replay after event k gives exactly events k+1 to seq when the buffer reaches back that far, the whole buffer when k is older, and nothing when k is beyond |
| `EventStream.RunInv` | mcpruntime/http_stream.go:48-136 | Over every run of subscribe, publish, unsubscribe, close, reopen and receive: what a subscriber took and has queued is an in-order, duplicate-free part of what was published since it subscribed; subscribers are open |
| `EventStream.ReplayInOrder` | mcpruntime/http_stream.go:97-123 | Whatever is replayed comes from the history in order and beyond the number asked for |
| `EventStream.HistoryIDsDistinct` | mcpruntime/http_stream.go:42-45 | Two events of a stream never share an ID |
| `MessageStreams.MessageStream.Publish` | mcpruntime/http_stream.go:48-68 | A closed stream refuses; otherwise the event is numbered, stored with the oldest dropped, and offered to every open subscriber without blocking |
| `MessageStreams.MessageStream.Subscribe` | mcpruntime/http_stream.go:70-83 | A new channel, closed from the start on a closed stream, subscribed otherwise; all else unchanged |
| `MessageStreams.MessageStream.Unsubscribe` | mcpruntime/http_stream.go:85-92 | Only a current subscriber is removed and closed, so no channel is closed twice |
| `MessageStreams.MessageStream.EventsAfter` | mcpruntime/http_stream.go:97-123 | The filtered buffer, or the two error cases of a foreign or unreadable ID |
| `MessageStreams.MessageStream.Close` | mcpruntime/http_stream.go:125-136 | All subscribers are closed once and forgotten; a closed stream stays as it is |
| `Deliveries.PublishReaches` | mcpruntime/http_stream.go:48-68 | A publication on an open stream puts the next event behind what is queued for every subscriber that has room, and changes no other queue; on a closed stream nothing happens |
| `Deliveries.NothingMissed` | mcpruntime/http_stream.go:48-136 | Over every run: a subscriber whose channel was never full at a publication has read or queued exactly the history since it subscribed |
| `EventIds.ParseFormatted` | mcpruntime/http_stream.go:273-286 | Parsing a formatted event ID returns the same stream ID and number, for every non-empty stream ID |
| `EventIds.EmptyStreamIDUnreadable` | mcpruntime/http_stream.go:273-286 | For the empty stream ID it does not |
| `EventIds.EventIDsInjective` | mcpruntime/http_stream.go:42-45 | Equal event IDs have equal stream and number |
| `EventIds.StreamIDsInjective` | mcpruntime/http_stream.go:166-195 | Equal stream IDs come from the same kind and counter, for kinds that do not end in a digit |
| `EventIds.DigitKindsCollide` | mcpruntime/http_stream.go:166-195 | Counterexample for kinds that do end in a digit |
| `Closings.OpenGives` | mcpruntime/http_stream.go:166-195 | While a listen stream is in the map it is the one and nothing changes; otherwise the stream is new, under the next number, open, empty, with the configured buffer or 1024 events, and in the map |
| `Sessions.SessionRun` | mcpruntime/http_stream.go:148-259 | Every run of opens, removals, closes and stream steps keeps the session invariant, in which every stream in the map is open and none of them is among those about to be closed, and only extends histories |
| `Sessions.NewSessionRun` | mcpruntime/http_stream.go:148-259 | In particular every run from a new session |
| `Sessions.ClosedByFinish` | mcpruntime/http_stream.go:203-234 | A stream is closed by the handler that took it out of the map, by nothing else, and then for good |
| `Sessions.EventIDsUnique` | mcpruntime/http_stream.go:166-195 | Two publications in a session with the same ID are the same publication, across all streams |
| `Sessions.EventIDsUniqueOverRun` | mcpruntime/http_stream.go:166-234 | The same between any two moments of a run, closed and forgotten streams included |
| `Sessions.NewIDNotIssued` | mcpruntime/http_stream.go:166-195 | The next stream ID was never issued before |
| `Sessions.ListenIsShared` | mcpruntime/http_stream.go:166-195 | Opening a listen stream while one exists returns that one and changes nothing |
| `Sessions.TargetIsTheListenStream` | mcpruntime/http_stream.go:238-259 | At most one listen stream exists, and the broadcast target is it |
| `Broadcast.BroadcastReachesOne` | mcpruntime/http_stream.go:238-259 | For every interleaving between the two mutex sections: only the listen stream that was picked can gain the event, which it does if and only if nobody has closed it in between; without a listen stream nothing is sent |
| `Broadcast.BroadcastLost` | mcpruntime/http_stream.go:222-259 | Counterexample: when the session is closed in between, the notification reaches nobody although a listen stream existed |
| `SessionStreams.SessionRegistry.OpenStream` | mcpruntime/http_stream.go:166-195 | The counter, the map and the listen list as the specification says, and the stream it returns is the one in the map |
| `SessionStreams.SessionRegistry.GetStream` | mcpruntime/http_stream.go:197-201 | A registered stream that carries the ID asked for; none exactly when no stream is registered under it |
| `SessionStreams.SessionRegistry.CloseStream` | mcpruntime/http_stream.go:203-220 | The stream leaves map and listen list, then is closed; every other stream is untouched |
| `SessionStreams.SessionRegistry.TakeAll` | mcpruntime/http_stream.go:222-229 | Map and listen list are emptied and all former streams handed over for closing |
| `SessionStreams.SessionRegistry.CloseAll` | mcpruntime/http_stream.go:222-234 | Then the loop closes every one of them |
| `SessionStreams.SessionRegistry.PickTarget` | mcpruntime/http_stream.go:244-252 | Picks the first listen stream still in the map |
| `SessionStreams.SessionRegistry.BroadcastNotification` | mcpruntime/http_stream.go:238-259 | With nothing in between, publishes to the stream picked, and fails exactly when it is closed |
| `SessionStreams.WritePostSSE` | mcpruntime/http.go:265-286 | A POST with nothing else going on writes an empty priming event and then the response, numbered 1 and 2 on a stream of its own that is gone afterwards |
| `PostResponse.PostWrites` | mcpruntime/http.go:265-286 | For every interleaving: a POST that is through has written prime and response with those numbers, or the prime alone, or a prime without an ID; its stream is out of the map for good. That nobody else publishes on its stream is proved in Server.PostPart |
| `PostResponse.ResponseArrives` | mcpruntime/http.go:265-286 | The response reaches the wire, as number 2 after number 1, if and only if nobody closes the stream before; with Server.PostRun, in every run of the whole session |
| `Connection.ConnectionInOrder` | mcpruntime/http.go:313-399 | For every interleaving with other activity in the session, the events written on a GET are of one stream, strictly increasing and above the floor, and the replay comes first |
| `Connection.ResumeFromEvent` | mcpruntime/http.go:313-350 | When the client resumes from event k that exists, the floor is k and the replay is everything after k that the buffer still has |
| `Connection.ResumedBeyond` | mcpruntime/http.go:313-399 | Over every run: a client that resumed after event k, which the stream had reached, is never sent k or anything before it again |
| `Connection.RunSound` | mcpruntime/http.go:288-400 | Every state of every run keeps what is written and what is waiting in order, and the handler ready for its next section |
| `Resumptions.FirstLeadsTo` | mcpruntime/http.go:313-343 | Over every run the first section of a GET leads to the stream named in Last-Event-ID if and only if it is in the map, to the listen stream without replay exactly if it is not, to the listen stream with a prime if nothing was sent, and to an error if the ID cannot be read |
| `Resumptions.SecondReplays` | mcpruntime/http.go:330-350 | Its second section then takes for replay exactly what that stream's buffer has beyond the event named, whatever has happened in between |
| `LiveConnections.GetsLive` | mcpruntime/http.go:345-399 | A GET with its stream serves live events, with its replay written, after as many sections as it replays events and four more, unless its client goes away |
| `LiveConnections.PrimedIfEmpty` | mcpruntime/http.go:355-366 | Without Last-Event-ID the handler has written one event without data by the time it subscribes if and only if the buffer was empty when it looked |
| `LiveConnections.PrimeSection` | mcpruntime/http.go:361-365 | That event has the stream's next number and is in its history, unless the stream was closed under the handler; then it is blank and nowhere |
| `LiveConnections.NothingMissed` | mcpruntime/http.go:368-399 | A live connection whose channel was never full at a publication has written or queued exactly what its stream published since it subscribed, behind its replay |
| `LiveConnections.NothingInTheGap` | mcpruntime/http.go:330-399 | A client that resumes after an event its stream still has, and whose channel is never found full, has been sent or has queued everything after that event if and only if nothing was published between the section that takes the replay and the one that subscribes |
| `LiveConnections.LiveSection` | mcpruntime/http.go:382-393 | Each section writes the event queued first, and with nothing queued ends the connection exactly if its channel was closed |
| `LiveConnections.NoSubscriberLeft` | mcpruntime/http.go:368-370 | However a live connection ends, its channel is no longer a subscriber |
| `Server.ServerRun` | mcpruntime/http.go:156-420 | In every state of every run of a session with any number of GET, POST, notification and closing handlers, the session is consistent, every handler is as its own module says, and no two handlers share a channel, a POST stream or a stream to close |
| `Server.GetPart` | mcpruntime/http.go:288-400 | What any handler does is, for a GET that it is not, a section of the session that leaves its channel alone: the assumption of Connection |
| `Server.PostPart` | mcpruntime/http.go:265-286 | For a POST that it is not, a section that does not publish on its stream: a GET primes only a listen stream, which it opened without a Last-Event-ID, a notification goes to a listen stream, and every POST has its own |
| `Server.GetRun` | mcpruntime/http.go:288-400 | Every GET of a run, seen alone, is a run of Connection |
| `Server.PostRun` | mcpruntime/http.go:265-286 | Every POST of a run, seen alone, is a run of PostResponse |
| `Server.NotifyRun` | mcpruntime/http_stream.go:238-259 | Every notification of a run, seen alone, is a run of Broadcast |
| `Server.EveryGetInOrder` | mcpruntime/http.go:288-400 | Whatever the handlers of a session do, each GET writes events of one stream, strictly increasing and above its floor |
| `Server.EveryPostWrites` | mcpruntime/http.go:265-286 | Whatever the handlers of a session do, each POST that is through has written prime and response under 1 and 2 of its own stream, or what fits before somebody closed it |
| `Server.PostsHaveTheirOwn` | mcpruntime/http_stream.go:166-195 | No two POSTs of a session share a stream, and none is a listen stream |
| `Closings.Configured` | mcpruntime/http_stream.go:158-164 | A new buffer size counts for the streams opened from then on, and is ignored unless positive |
| `Closings.NoStreamLeaks` | mcpruntime/http_stream.go:148-259 | From a new session on, whenever no handler is about to close a stream, every stream ever opened is in the map if and only if it is open |
| `Closings.PostEnds` | mcpruntime/http.go:265-286 | A POST is through after five sections of its own, whatever the others do |
| `Closings.EndClosesAll` | mcpruntime/http_stream.go:222-234 | When the handler that ends a session is through, every stream that it found in the map is closed |
| `Closings.EnderEnds` | mcpruntime/http_stream.go:222-234 | It is through after as many sections as it found streams, and one more |
| `Sse.WriteSSEEvent` | mcpruntime/sse.go:28-48 | Appends exactly the framed event, data split into lines |
| `Sse.WriteSSEComment` | mcpruntime/sse.go:60-63 | Appends exactly the comment line and the blank line |
| `Sse.WriteSSERetry` | mcpruntime/sse.go:51-57 | Appends the retry line, or nothing when the value is not positive |
| `Sse.RoundTrip` | mcpruntime/sse.go:28-63 | A reader that follows section 9.2.6 of the WHATWG HTML standard gets back exactly the sequence of events written, if and only if IDs have no line break or NUL and data has no carriage return |
| `Sse.RetryRoundTrip` | mcpruntime/sse.go:51-57 | A reader of what was written takes for its reconnection time the last positive one that was written, whatever events and comments stand around it |
| `Sse.CarriageReturnIsLost` | mcpruntime/sse.go:28-48 | Counterexample with a carriage return in the data |
| `Sse.ReadEvent` | mcpruntime/sse.go:28-48 | One framed event, wherever it stands, dispatches one message with its data and the current ID |
| `Sse.JoinSplit` | mcpruntime/sse.go:36-43 | Splitting data into lines loses nothing |
| `UriTemplate.ExtractURIParams` | mcpruntime/resource.go:16-57 | The loops and the match compute the specified extraction |
| `UriTemplate.ExtractSucceeds` | mcpruntime/resource.go:16-57 | Extraction succeeds exactly on expansions of the template with non-empty values without a slash |
| `UriTemplate.MatchExact` | mcpruntime/resource.go:35-41 | The anchored pattern matches exactly the expansions, and captures come first in greedy order |
| `UriTemplate.ExtractThenExpand` | mcpruntime/resource.go:16-57 | With distinct names, expanding the template with the result gives the URI back |
| `UriTemplate.ExtractThenLookup` | mcpruntime/resource.go:42-56 | The result holds the captures themselves exactly when the captures under one name agree |
| `UriTemplate.URIGivenBack` | mcpruntime/resource.go:16-57 | Expanding the template with the result gives the URI back when they agree; with a slash between placeholders, if and only if they agree |
| `UriTemplate.RepeatedNameLosesURI` | mcpruntime/resource.go:42-56 | Counterexample, for every legal one-letter name and any two different values: of /{x}/{x} only the last value is kept, and the URI does not come back |
| `UriTemplate.ExpandThenExtract` | mcpruntime/resource.go:16-57 | If each literal between placeholders has a slash, extracting an expansion returns the values used |
| `UriTemplate.ExtractionInverts` | mcpruntime/resource.go:35-41 | The same for the captures, in order |
| `UriTemplate.ScanRenders` | mcpruntime/resource.go:17-33 | Cutting a template into literals and names loses nothing, and every name is a legal one |
| `UriPlaceholders.ScanFindsName` | mcpruntime/resource.go:12-33 | Every name of letters, digits and underscores that begins with no digit, of any length, between braces, is found, and the scan goes on behind it |
| `UriPlaceholders.NothingMissed` | mcpruntime/resource.go:12-33 | No literal part of a scan contains such a name between braces |
| `UriPlaceholders.ScanInverts` | mcpruntime/resource.go:17-33 | Writing out literal parts without an opening brace and legal names, and scanning the text, gives the parts and names back |
| `UriPlaceholders.WrittenTemplateExtracts` | mcpruntime/resource.go:16-57 | A URI made from such a template gives every value back under its name, when names differ and a slash stands between placeholders |
| `PythonCollector.Collector.CheckName` | internal/codegen/python_names.go:179-194 | A free or own name is registered; a taken one is reported and nothing changes |
| `PythonCollector.Collector.OwnerForProtoPath` | internal/codegen/python_type_collect.go:467-491 | The current file needs nothing; another file gets both aliases registered and one import |
| `PythonCollector.Collector.CollectEnum` | internal/codegen/python_type_collect.go:315-356 | A new enum is marked, its name claimed, its type appended; a seen one changes nothing |
| `PythonCollector.Collector.TypeRefForField` | internal/codegen/python_type_collect.go:396-465 | Success gives the right reference with everything behind it seen and noted; failure means that collecting cannot work |
| `PythonCollector.Collector.CollectField` | internal/codegen/python_type_collect.go:358-394 | The translated field, with its map entry dealt with |
| `PythonCollector.Collector.CollectMessage` | internal/codegen/python_type_collect.go:222-239 | Map entries and supported well-known types are skipped, seen messages not entered again; otherwise the message and all it leads to is collected, and the search ends because unseen messages run out |
| `PythonCollector.Collector.CollectNewMessage` | internal/codegen/python_type_collect.go:239-313 | A new message: opened, its parts collected, closed by appending its one complete type |
| `PythonCollector.Collector.CollectOneofs` | internal/codegen/python_type_collect.go:281-309 | Every variant of every oneof is translated and its class name claimed |
| `PythonCollector.OpenFrameInv` | internal/codegen/python_type_collect.go:236-239 | Marking a message keeps the invariant with one more open frame: seen is collected types plus open frames |
| `PythonCollector.CloseFrameInv` | internal/codegen/python_type_collect.go:311-312 | Appending the complete type keeps the invariant with that frame closed |
| `PythonCollector.TryClaimInv` | internal/codegen/python_names.go:179-185 | A name check either keeps the invariant or proves that two reachable types conflict, whatever the order of collection |
| `PythonGraphs.Finished` | internal/codegen/python_type_collect.go:12-48 | With no frame open and all roots seen: exactly the reachable types, each once and rightly translated, with exactly the imports they need, and no conflict among them |
| `PythonDescriptors.GraphMirrors` | internal/codegen/python_type_collect.go:239-465 | Every collected type keeps its descriptor: each field's name, number, kind, file, list, map, presence and whether it is required, each oneof with its variants, each enum value, can be read off it |
| `PythonDescriptors.MentionedIsThere` | internal/codegen/python_type_collect.go:222-313 | Whatever type a collected type mentions is in the graph, and the other files it mentions are imported |
| `PythonDescriptors.CollectedIsMentioned` | internal/codegen/python_type_collect.go:222-313 | Nothing is in the graph but the roots and what some type in it mentions |
| `PythonDescriptors.ImportIsMentioned` | internal/codegen/python_type_collect.go:467-491 | Nothing is imported but other files of the graph's types and of what they mention |
| `PythonDescriptors.AliasesDiffer` | internal/codegen/python_type_collect.go:467-491 | A graph collected without conflict imports each module under an alias of its own |
| `NameConflicts.FailsIff` | internal/codegen/python_type_collect.go:222-313 | Collecting fails exactly if, among the types reached, one class name of a module stands for two symbols, one alias for two modules, or some type holds one of Google's that is not known |
| `PythonGraphs.CollectFromMethods` | internal/codegen/python_type_collect.go:20-48 | Succeeds if and only if nothing reachable from the methods, or from the declarations of a file without any, is in conflict or unsupported; then the graph is exactly what is reachable |
| `PythonGraphs.CollectFromRefs` | internal/codegen/python_type_collect.go:50-89 | The same from a set of references into the file, in any order; an unknown reference fails |
| `PythonGraphs.CollectTree` | internal/codegen/python_type_collect.go:205-220 | All declarations nested in a message are dealt with |
| `TypeGraphs.TypeGraph.Merge` | internal/codegen/python_type_collect.go:113-153 | Success leaves the base list as a prefix, then every missing type once; failure means a class name clash, exactly when the base has none |
| `TypeGraphs.MergeKeepsBase` | internal/codegen/python_type_collect.go:138-150 | The base is a prefix of the result and the full names are the union |
| `TypeGraphs.MergeNamesOnce` | internal/codegen/python_type_collect.go:138-150 | No full name is there twice afterwards |
| `TypeGraphs.MergeCollected` | internal/codegen/python_type_collect.go:113-153 | Merging the graphs of two root sets gives the graph of their union: complete, closed under references, imports exact |
| `TypeGraphs.MergeKeepsClassesDistinct` | internal/codegen/python_type_collect.go:139-141 | Without a clash, types of the current file keep distinct class names |
| `TypeGraphs.ClashIffNotDistinct` | internal/codegen/python_type_collect.go:139-141 | The check fires exactly when the merge would give two types one class name |
| `TypeGraphs.MergeAliases` | internal/codegen/python_type_collect.go:113-128 | The merge compares paths only: afterwards no import alias stands for two modules if and only if none did in either graph and none does across the two |
| `TypeGraphs.CollectedAliasesApart` | internal/codegen/python_type_collect.go:372-395 | Collection in one go leaves no alias that stands for two modules |
| `ClassNames.DistinctIffDisjoint` | internal/codegen/python_type_collect.go:113-153 | After a successful pass all class names of a file, oneof and variant classes included, are distinct if and only if no two types of the file in its final graph claim a class name for different symbols |
| `SharedNames.ExampleSharesName` | internal/codegen/python_type_collect.go:130-141 | Counterexample: two files that pass all checks, while the variant class of a oneof and a message that only the other file uses have one name |
| `SharedNames.CollectShop` | internal/codegen/generator.go:207-254 | What the pass does with two such files |
| `CrossFile.CollectModels` | internal/codegen/generator.go:207-254 | The pass over all files succeeds exactly when every file can be collected and augmented; then each graph holds what its own starts and the other files reach |
| `CrossFile.GatherRefs` | internal/codegen/generator.go:224-239 | The references gathered for a file are the full names of its types in the graphs of other files |
| `CrossFile.Augment` | internal/codegen/python_type_collect.go:91-111 | Adding what others need of a file succeeds exactly when it is declared there, collectable, and clashes with nothing |
| `CrossFile.OnePassSuffices` | internal/codegen/generator.go:224-251 | After one pass, a type in one generated file that belongs to another is in that other file's graph |
| `CrossFile.SecondPassIsIdle` | internal/codegen/generator.go:241-251 | A second pass would add nothing, neither types nor imports |
| `GeneratedFiles.GeneratedInOrder` | internal/codegen/generator.go:211-222 | The files of the pass are those marked for generation, in order |
| `GeneratedFiles.StartsAreGenerated` | internal/codegen/python_type_collect.go:20-48 | The types of a file's methods, or without methods all that it declares at any depth, are in its module, but for Google's types and map entries |
| `GeneratedFiles.GeneratedIsUsed` | internal/codegen/generator.go:207-254 | Every type of a module is reached from these, or from a type that the file declares and another file of the pass reaches from its own |
| `GeneratedFiles.UsedIsGenerated` | internal/codegen/generator.go:224-251 | Whatever another file of the pass reaches of a file is in that file's module |
| `MapperRoundTrip.RoundTrip` | internal/codegen/render_python_mappers.go:148-227 | When every name means what the generator meant by it: for every well-typed dataclass value, nested to any depth, to_pb succeeds and from_pb of the result is the value |
| `MapperRoundTrip.FieldTrip` | internal/codegen/render_python_mappers.go:229-244 | One assignment touches its own field only, and reading the field gives the attribute back: required, UNSET-able, repeated and map fields |
| `MapperRoundTrip.OneofTrip` | internal/codegen/render_python_mappers.go:208-223 | The same for a oneof and its variant classes, as long as names mean what they should |
| `MapperFill.FromFits` | internal/codegen/render_python_mappers.go:148-190 | What from_pb is to give is well typed |
| `MapperFill.FillTrip` | internal/codegen/render_python_mappers.go:148-227 | Where names mean what they should: to_pb after from_pb keeps every field that is there and only makes absent fields present that the dataclass cannot leave out |
| `MapperFill.SecondTripIsIdle` | internal/codegen/render_python_mappers.go:148-227 | Where names mean what they should, repeating the trip changes nothing |
| `MapperFields.ReadField` | internal/codegen/render_python_mappers.go:297-331 | What from_pb makes of each field: lists and maps converted value by value, else the value that is there, UNSET for an absent one with presence that is not required, and otherwise the zero of its type |
| `MapperFields.ReadOneof` | internal/codegen/render_python_mappers.go:156-173 | What from_pb makes of each oneof: UNSET if no member is set, else the class of a member that is, with its value |
| `MapperFields.WriteField` | internal/codegen/render_python_mappers.go:229-295 | What to_pb leaves in the message for each field: nothing for an empty list or map, for UNSET, or for the zero of a field without presence, and the converted values otherwise |
| `MapperFields.WriteOneof` | internal/codegen/render_python_mappers.go:208-223 | What to_pb leaves for each oneof: nothing for UNSET, else the member of the value's class and no other |
| `MapperFields.ReadEnum` | internal/codegen/render_python_mappers.go:332-349 | An enum is read by number if a value with that number is shown, and raises otherwise |
| `MapperPresence.ReadUnsetIff` | internal/codegen/render_python_types.go:176-184 | from_pb gives UNSET if and only if the field is absent, has presence, is single, in no oneof and not required |
| `MapperPresence.WriteUnsetIff` | internal/codegen/render_python_types.go:176-184 | to_pb takes UNSET for such a field only, leaves it out then, and only then |
| `MapperPresence.AbsentStaysAbsent` | internal/codegen/render_python_mappers.go:148-227 | Read and written again, such a field is in the message exactly if it was |
| `MapperDepth.EmptyMessageReadable` | internal/codegen/render_python_mappers.go:320-349 | For each message type: from_pb of an empty message succeeds, with enough recursion depth, if and only if no enum that it reads hides its zero and no message type that it requires, directly or not, requires itself; the number of required types is depth enough |
| `MapperDepth.TrapNeverReady` | internal/codegen/render_python_mappers.go:320-349 | On a cycle of required message fields from_pb of an empty message exceeds every recursion limit |
| `MapperDepth.FillsAndSettles` | internal/codegen/render_python_mappers.go:148-227 | When this holds of the message types that a reference can lead to, every well-formed message goes through from_pb and to_pb, comes out filled, and goes through unchanged the next time; other types of the file play no part |
| `MapperDepth.FromRefDeeper` | internal/codegen/render_python_mappers.go:332-349 | More recursion depth never changes a result |
| `MapperAgreement.MessageAgrees` | internal/codegen/render_python_mappers.go:148-190 | The emitted from_pb of a type, with its local variables and class names looked up where Python looks them up, fails where it is to fail, and otherwise gives what it is to give if and only if its module loads, its dataclass has its fields, UNSET is its own where it is needed, and no name that it reads on the way is captured or stands for another class |
| `MapperAgreement.RunToRefIs` | internal/codegen/render_python_mappers.go:192-227 | The emitted to_pb gives what it is to give if its module loads, UNSET and the library's modules are what they should be where they are needed, and every class test on the way finds its class; otherwise it raises |
| `MapperAgreement.RunRoundTrip` | internal/codegen/render_python_mappers.go:148-227 | A well-typed value goes through the emitted mappers unchanged if and only if their module loads and nothing is captured or mistaken on the way |
| `MapperNames.NamesDecide` | internal/codegen/render_python_mappers.go:148-190 | For a type that has readable messages of all kinds and holds otherwise harmless types: its from_pb is right on every message if and only if the module loads, its own names capture nothing and its class names and UNSET stand for what they should |
| `HarmlessNames.HarmlessToRead` | internal/codegen/render_python_mappers.go:148-190 | The condition written out: which names each field, oneof and class makes from_pb look up, and what the last definition of each has to be |
| `HarmlessNames.HarmlessToWrite` | internal/codegen/render_python_mappers.go:192-227 | The same of to_pb: the tests before a variant's own fail and its own succeeds, UNSET is the module's, and the library's modules are not hidden |
| `MapperNames.CapturedNeverReads` | internal/codegen/render_python_mappers.go:156-158 | A oneof called message or UNSET makes from_pb raise on every message |
| `MapperNames.OverwrittenNeverRight` | internal/codegen/render_python_mappers.go:156-158 | A oneof x_case before a oneof x makes every message come out wrong |
| `MapperNames.ShadowedListNeverReads` | internal/codegen/render_python_mappers.go:297-302 | A oneof called list does so for every type with a list of scalars |
| `MapperNames.NoteNeverReads` | internal/codegen/render_python_mappers.go:148-190 | The smallest such type, its empty message, and what is to come out of it |
| `MapperNames.TakenUnsetNeverReads` | internal/codegen/render_python_types.go:21-21 | When a class has taken the name UNSET, no message with everything left out that can be comes out as it should |
| `MapperNames.LostFieldsNeverWork` | internal/codegen/render_python_types.go:79-126 | The mappers of a type raise always when its class body hides UNSET from later defaults or rewrites the name of a member |
| `MapperNames.QuietFill` | internal/codegen/render_python_mappers.go:148-227 | The fill theorem for the emitted mappers of harmless types: every well-formed message comes out filled, and what comes out goes through unchanged |
| `MapperValues.ComeBackIffQuiet` | internal/codegen/render_python_mappers.go:148-227 | When message types hold no others and have values of all kinds: all their well-typed values come back from the emitted mappers if and only if all the types are harmless |
| `MapperValues.SamplesExist` | internal/codegen/render_python_mappers.go:148-227 | They have such values when none of them requires itself, the enums that they require show their zeroes and all their enums have members |
| `MapperDefaults.LeftAloneRaises` | internal/codegen/render_python_mappers.go:208-244 | to_pb of a dataclass left at its defaults, in which every class has left the UNSET of its own module, raises if and only if its type, or one that it requires, directly or not, is of another file and has a oneof or a field that can be left out and whose value is looked at |
| `MapperDefaults.SpoilsIs` | internal/codegen/render_python_types.go:128-175 | Which types do that, written out: those of other files with a oneof, or with a field that can be left out and holds anything but Empty and messages without fields and oneofs |
| `MapperDefaults.LeftAloneNeverWrites` | internal/codegen/render_python_mappers.go:208-244 | The same of the emitted to_pb, in a module that loads and whose names are what they should be; the raising needs no such condition |
| `MapperDefaults.ForeignUnsetIsSet` | internal/codegen/render_python_mappers.go:238-240 | When to_pb does not raise, a field left out is left out of the message if the class is the file's own, and is set in it if the class is another file's |
| `MapperPrograms.OneofFromPb` | internal/codegen/render_python_mappers.go:156-173 | One oneof: the assignments and the if-elif chain over the map of local variables have exactly the specified effect |
| `MapperPrograms.MessageFromPb` | internal/codegen/render_python_mappers.go:148-190 | The emitted statements, run in order over local variables, give exactly the specified dataclass or raise |
| `MapperPrograms.MessageToPb` | internal/codegen/render_python_mappers.go:192-227 | The emitted statements, run in order on a fresh message, build exactly the specified message or raise |
| `MapperPrograms.AssignField` | internal/codegen/render_python_mappers.go:229-295 | One field's statements have exactly the specified effect |
| `MapperPrograms.AssignOneof` | internal/codegen/render_python_mappers.go:208-223 | The chain of class tests sets the member of the first class that the value is an instance of; anything else raises |
| `SnakeNames.OtherAppended` | internal/codegen/python_names.go:196-218 | In the names of helpers every character but a capital is kept, gaps become underscores |
| `SnakeNames.CapitalAppended` | internal/codegen/python_names.go:224-236 | A capital becomes lower-case, behind an underscore if a lower-case letter or a digit is before it |
| `SnakeNames.WordAppended` | internal/codegen/python_names.go:224-236 | A capital that a lower-case letter follows begins a word, whatever is before it but a gap |
| `MapperEnv.CollectedEnvOk` | internal/codegen/python_type_collect.go:261-309 | What the collector checks, with what protobuf guarantees, is what the round trip assumes about types |
| `MapperEnv.GeneratedRoundTrip` | internal/codegen/render_python_mappers.go:148-227 | The whole way: after a successful pass over all files, a well-typed value of a generated file goes through its emitted to_pb and from_pb unchanged if and only if Python can load the final module, with all that it imports, and no name on the way is captured by a variable or stands for another class of the final module |
| `MapperEnv.FileComesBack` | internal/codegen/render_python_mappers.go:148-227 | After a successful pass, when the message types of a file's graph have values of all kinds: all their well-typed values come back if and only if all of these types are harmless |
| `MapperPresence.GeneratedPresence` | internal/codegen/render_python_mappers.go:148-227 | In a generated file with harmless names the emitted from_pb reads a field as UNSET exactly if its descriptor is marked optional, with presence, and the message leaves it out; the emitted to_pb leaves it out again |
| `PythonModules.LoadsStep` | internal/codegen/render_python.go:25-103 | A module of a run loads if and only if it is there, its names parse and its class bodies run, and everything that it imports loads |
| `PythonModules.MessageSpells` | internal/codegen/render_python_mappers.go:148-227 | The names that a message makes its module spell, one by one |
| `PythonModules.EnumSpells` | internal/codegen/render_python_types.go:63-77 | The names that an enum does |
| `PythonModules.KeywordNeverLoads` | internal/codegen/render_python_mappers.go:148-227 | A keyword among the names that a module spells keeps it, and every module that leads to it by imports, from loading |
| `PythonModules.ShadowNeverLoads` | internal/codegen/render_python_types.go:107-115 | So does a member called field that has a default and stands before a list or a map of the same class |
| `PythonModules.ReservedNeverLoads` | internal/codegen/render_python_types.go:63-77 | So does a shown enum value called mro, or with one underscore at each end |
| `PythonModules.BodiesRun` | internal/codegen/render_python_types.go:98-120 | The class body of a message runs exactly if no member called field that has a default stands before a list or map |
| `PythonModules.ProtocolNeverLoads` | internal/codegen/render_python.go:104-113 | And an enum with members called Protocol in a file that has a service, prompts or resources |
| `MapperEnv.KeywordStopsFile` | internal/codegen/render_python_mappers.go:148-227 | With a keyword among its names, no value of any type comes back from a file's mappers |
| `MapperEnv.TransferIsToComeBack` | internal/codegen/render_python_mappers.go:148-227 | The smallest such type, with one field called from: its values are well typed and are to come back |
| `MapperEnv.TransferNeverComesBack` | internal/codegen/render_python_mappers.go:183-201 | They do not, in any run with that type |
| `MapperEnv.UnsetKeptIff` | internal/codegen/render_python_types.go:13-60 | The name UNSET keeps its meaning if and only if no class of the file and no handler is called UNSET |
| `MapperEnv.ClassesFound` | internal/codegen/render_python_types.go:45-62 | In that module every class of the file is found under its own name if and only if no two of its types claim a class name for different symbols and no handler, for a service, the prompts or the resources, has one of the names |
| `MapperEnv.OwnTypeIsQuiet` | internal/codegen/render_python_mappers.go:148-190 | A type of the file whose classes are found is harmless when the module loads, its class bodies keep its members, UNSET is its own if it needs it, its oneofs keep their variables apart and none has a name that its mapper reads |
| `MapperEnv.LostVariantNeverReads` | internal/codegen/render_python_mappers.go:165-172 | When the name of a variant class stands for something else, no message with that member set can be read |
| `MapperEnv.ImportedOneofNeverReads` | internal/codegen/render_python_mappers.go:165-172 | The variant classes of an imported type are called by bare names that the importing module does not have: no message of such a type with a oneof member set can be read |
| `MapperEnv.CollectedClosed` | internal/codegen/render_python_mappers.go:370-379 | Every message type that a message of a collected graph can hold is in the graph, so it has a mapper |
| `BorrowedTypes.BorrowedNeverWrites` | internal/codegen/render_python_mappers.go:192-227 | In the module of a file that holds a message of another, with an optional field and a oneof: no dataclass left at its defaults, of either type, gets through to_pb |
| `BorrowedTypes.BorrowedNeverReads` | internal/codegen/render_python_mappers.go:165-172 | And no message of the other file with the oneof set gets through from_pb |
| `BorrowedTypes.ExampleLoads` | internal/codegen/render_python.go:25-103 | Although both modules load when the names are ordinary |
| `BorrowedTypes.KeywordStopsBoth` | internal/codegen/render_python_mappers.go:148-227 | With a keyword for the name of the optional field, the file that holds the message has no mapper that works |
| `BorrowedTypes.CollectClub` | internal/codegen/generator.go:207-254 | A pass over two such files succeeds, and this is what becomes of them |

## Left out

- EventStream.ReplayExact: numbers up to 2^63 - 1 only; the counter is unbounded here, where the source uses int64.
- SchemaMeaning.WellKnownMeaning: the syntax of timestamps, field masks, base64 text and 64-bit integers in strings is not modelled, because the generated schemas do not constrain it.
- SessionStreams.SessionRegistry.BroadcastNotification: nothing happens between its two sections; Broadcast.BroadcastReachesOne has them apart.
- SessionStreams.WritePostSSE: the POST alone, without other requests between its steps; PostResponse.PostWrites and Server.EveryPostWrites have every interleaving.
- UriTemplate.URIGivenBack: without a slash between placeholders, captures that differ can still spell the URI when they are replaced by the last ones ({x}{y}/{x}/{y} on abc/a/bc), so their agreement is sufficient only.
- MapperRoundTrip.RoundTrip: scalars are opaque and in the range of their type, so the rounding of a Python float to a protobuf float is not modelled.
- MapperEnv.GeneratedRoundTrip: of a module's names only classes, the handlers' classes after them, the built-in Empty, UNSET, list and dict, the mappers' helpers and the library's protobuf modules are looked up; all others are taken to be the generator's. Import aliases contain a checksum of the path and are taken to differ. Protobuf message attributes like WhichOneof, and names that begin and end with two underscores, are taken not to be fields, and an enum value is taken to be a member unless its name is one that PythonModules.Reserved lists.
- Examples.ExampleMaker.AutoMessageExample: examples given as field metadata are not modelled.
- HTTP plumbing, headers, flushing, heartbeats, session IDs, expiry, origin checks and write errors: input and output without a property of their own.
- Descriptions, titles, defaults, examples and constraint metadata in schemas, icons and annotations: copied data.
- Property names are constrained by type, enum and pattern only, the keywords that the compiler emits there.
- The JSON mappers of Python's well-known types and the protobuf library: opaque leaves; CopyFrom is taken to set presence.
- Helper name checks, and of the class bodies of the generated Python all but the names that they bind: rendering of what is modelled.
- Errors of CollectFileModel other than those of the type graph, and models without a graph: every Python model has one.
- The JVM and TypeScript collectors and renderers: near copies or simpler forms.
- Cyclic Python values given to to_pb: values here are finite.
