# ONVIF test tool: a verified model of its core

This project models the core of a small ONVIF camera test tool. A web page loads an ONVIF WSDL document. It lists the document's bindings and operations and builds an input form for an operation from the operation's XSD input type. It then sends the filled-in form to a camera as a SOAP call. The camera's reply comes back as JSON, together with the raw request and response envelopes.

The model covers these parts:

- **Serializer**: the response normaliser. `_make_json_safe` is a recursive type switch, and `_element_to_dict` turns an XML element into a map keyed by its local tag, with repeated child tags collected into lists.
- **Wsdl, Catalog, Ordering**: the parsed WSDL document and the loader. The loader's per-URL cache of parsed documents is a class with a `map` field. The binding listing sorts each binding's operation names.
- **Introspector**: the recursive descriptor walk over an operation's input type. It stops at depth 5, translates XSD type names into the form's type names and lists enumeration values.
- **Executor**: endpoint resolution from the binding name, the SOAP history capture (latest exchange only), XML extraction and the result envelope of `execute`.
- **Profiles**: the ONVIF profile table. It covers discovery through `GetServices` with the `GetCapabilities` fallback, and the supported flag of each profile.
- **Config**: the preset WSDL list and the binding-to-endpoint table.
- **App**: the JSON provider's fallback for values the encoder cannot handle, with the duration text and its reader. It also covers the three API routes: their field trimming, their 400/500 replies and their calls into the loader, the introspector and the executor.
- **ParamBuilder**: the browser-side form logic. This is the form inputs the form builder creates for a descriptor tree, with their dotted names. It also covers the `collectParams` walk that turns dotted names back into a nested object, and the value casting.

Library and environment behaviour enters the model as parameters. This covers zeep's client construction and calls, `isoformat()`, `str()`, UTF-8 decoding, envelope rendering, and JavaScript's `parseInt`/`parseFloat`. The model states what the tool's own code does with their results.

## Model

| member | source | states |
|---|---|---|
| Text.IntTextRoundTrip | app.py:124 | `int()` reads Python's integer text `str(i)` back as `i`, for every integer |
| Text.ParseInt | app.py:124 | empty or all-whitespace text is not an integer: `int()` raises |
| Text.SplitJoin | static/js/param-builder.js:158 | splitting a dotted name at `.` recovers the parts it was joined from when no part holds a `.` |
| Serializer.ElementToDict | onvif_client/serializer.py:43-77 | the step-by-step element walk, including the sibling loop that turns a repeated tag into a list, yields exactly the element's one-entry map |
| Serializer.ElementDict | onvif_client/serializer.py:43-77 | the result is a map with the single key `LocalName(tag)`, holding the element's value |
| Serializer.ChildrenToDict | onvif_client/serializer.py:59-75 | the loop over the children, starting from `@attributes` when the parent has attributes, yields exactly the in-order merge `Fold` of the children's (tag, value) entries |
| Serializer.MergeChild | onvif_client/serializer.py:69-75 | merging one child gives exactly `AddChild`: a new tag takes the value, a tag held once becomes a two-item list, a list gets the value appended |
| Serializer.ParentKeys | onvif_client/serializer.py:59-75 | a parent's keys are its children's distinct local tags, plus `@attributes` exactly when it has attributes |
| Serializer.RepeatedTags | onvif_client/serializer.py:64-75 | a tag met once holds that child's value; a tag met k ≥ 2 times holds the list of all k values in document order |
| Serializer.LeafShape | onvif_client/serializer.py:49-57 | a childless element gives its stripped text when that is not blank, else its attribute dict when it has attributes, else None |
| Serializer.MakeJsonSafe | onvif_client/serializer.py:23-40 | the output is always JSON-normal; dicts keep their keys; lists and tuples become lists of the same length |
| Serializer.NormalIsFixed | onvif_client/serializer.py:23-40 | a value that is already normal is returned unchanged |
| Serializer.Idempotent | onvif_client/serializer.py:23-40 | normalising twice gives the same result as normalising once |
| Serializer.SwitchCases | onvif_client/serializer.py:24-40 | each branch of the type switch: dict entries and list items are normalised one by one; elements go through the element rule; durations become `str()` text; dates and times become `isoformat()` text; decimals become floats; bytes are decoded; every other value, sets included, passes through unchanged |
| Serializer.Serialize | onvif_client/serializer.py:17-20 | the result of `serialize` is always normal |
| Introspector.FriendlyName | onvif_client/type_introspector.py:94-118 | a name in the table is translated into the form's type vocabulary; any other name passes through unchanged |
| Introspector.FriendlyNameIdempotent | onvif_client/type_introspector.py:97-118 | translating a type name twice gives the same result as translating it once |
| Introspector.EnumFieldPresent | onvif_client/type_introspector.py:121-125 | `enum_values` is present exactly when the type is a restricted simple type with accepted values, and it then lists their `str()` texts in order |
| Introspector.ResolveElements | onvif_client/type_introspector.py:41-91 | the loop that appends descriptors and fills in children yields exactly the recursive descriptor list `Resolve` |
| Introspector.Resolve | onvif_client/type_introspector.py:41-91 | there is at most one descriptor per element entry |
| Introspector.Describe | onvif_client/type_introspector.py:49-88 | the descriptor is named by the element's name, or by its key when it has none; `required` holds exactly when `min_occurs >= 1`; `is_complex` holds exactly when the type is complex and the depth is below the cap |
| Introspector.DescribeElement | onvif_client/type_introspector.py:49-88 | the per-element body of the loop yields exactly `Describe` |
| Introspector.AppendAttributeParams | onvif_client/type_introspector.py:66-82 | the attribute loop appends exactly the attribute descriptors `AttributeParams`, skipping untyped ones, after the children already collected |
| Introspector.IntrospectOperation | onvif_client/type_introspector.py:8-38 | the binding, operation, input and body lookups yield exactly `Introspect` |
| Introspector.IntrospectWellFormed | onvif_client/type_introspector.py:5-91 | every descriptor is coherent and at most six levels deep on any closed schema, recursive ones included |
| Introspector.DescribeAtCap | onvif_client/type_introspector.py:57-63 | at the depth cap, a complex element becomes a leaf: not complex, no children, and its type name passed through |
| Introspector.Typed | onvif_client/type_introspector.py:44-47 | the entries kept are declared entries that have a type, in declaration order (one filter serves elements and attributes) |
| Introspector.ResolveFollowsDeclarations | onvif_client/type_introspector.py:44-47 | there is one descriptor per typed element, in declaration order; wildcard entries are skipped |
| Introspector.AttributeParamsFollowDeclarations | onvif_client/type_introspector.py:66-82 | there is one `@`-named descriptor per typed attribute, in declaration order |
| Introspector.ComplexDescriptor | onvif_client/type_introspector.py:57-82 | below the cap, a complex element is described by its type's name, or "complexType" when the type has none; its children are its element descriptors followed by exactly its attribute descriptors |
| Introspector.OccurrenceFields | onvif_client/type_introspector.py:49-54 | `min_occurs` defaults to 0; `max_occurs` is text that defaults to "1"; `required` holds exactly when `min_occurs >= 1` |
| Introspector.IntrospectMissingParts | onvif_client/type_introspector.py:31-38 | a missing binding, operation, input, body or element list gives `[]` |
| Introspector.SelfReferenceIsCut | onvif_client/type_introspector.py:57-63 | for any type whose only content is one element of its own type: below the cap the descriptor has exactly one child, the next level's descriptor; at the cap it is a leaf with the translated type name |
| Ordering.Insert | onvif_client/wsdl_loader.py:44-48 | insertion keeps a sequence strictly sorted and adds exactly the one name |
| Ordering.SortedUnique | onvif_client/wsdl_loader.py:44-48 | two strictly sorted sequences with the same elements are equal, so `sorted()` has exactly one result |
| Ordering.SortNames | onvif_client/wsdl_loader.py:44-48 | `sorted()` of distinct names is ascending and holds each name exactly once |
| Catalog.LocalPartIsLocalName | onvif_client/wsdl_loader.py:42 | the last `}`-separated part of a qualified name is its local name and holds no `}` |
| Catalog.ListingUnique | onvif_client/wsdl_loader.py:40-54 | a document has exactly one binding listing |
| Catalog.ListBindings | onvif_client/wsdl_loader.py:40-54 | there is one entry per binding, holding its qualified name, its local name and its sorted operation names |
| Catalog.WsdlLoader.constructor | onvif_client/wsdl_loader.py:10-11 | the cache starts empty |
| Catalog.WsdlLoader.LoadWsdl | onvif_client/wsdl_loader.py:19-56 | on success, the new client is stored under the URL (replacing any cached one) and the listing is returned; on failure, the error is returned and the cache is left unchanged |
| Catalog.WsdlLoader.GetClient | onvif_client/wsdl_loader.py:58-63 | a cached URL returns its cached client and leaves the cache unchanged; otherwise a new client is stored, or the construction error is returned with nothing stored |
| Config.EventBindingsShareEndpoint | config.py:127-160 | all eight event-service bindings map to `/onvif/event_service` |
| Config.SharedEndpoints | config.py:127-160 | both media bindings share one endpoint, and so do the analytics and rule engines |
| Config.EndpointPathPrefix | config.py:127-160 | every endpoint path starts with `/onvif/` |
| Config.EndpointPathSuffix | config.py:127-160 | every endpoint path ends with `_service` |
| Config.PresetsAgreeWithEndpointMap | config.py:4-160 | each preset's endpoint is the one the endpoint table gives its binding |
| Executor.EndpointPath | config.py:127-160 | the path is the table entry for the binding's local name, or the device path when the table has none |
| Executor.ResolveXaddr | onvif_client/command_executor.py:91-95 | the address always starts with `http://` |
| Executor.XaddrParts | onvif_client/command_executor.py:91-95 | the address is `http://`, the IP, `:`, the port's decimal text and the path, in that order |
| Executor.DeviceIsDefault | onvif_client/command_executor.py:91-95 | DeviceBinding resolves to the default path |
| Executor.QualifiedLikeLocal | onvif_client/command_executor.py:91-95 | a qualified name `{ns}Local` resolves the same way as `Local` |
| Executor.CaptureKeepsLatest | onvif_client/command_executor.py:40 | the history keeps only the latest exchange: what came before a request is forgotten |
| Executor.ExtractXmlCases | onvif_client/command_executor.py:97-108 | an unknown direction, an empty history or a missing reply gives ""; otherwise the rendered envelope, or "" when rendering fails |
| Executor.ExtractXml | onvif_client/command_executor.py:97-108 | text comes back only for "sent" or "received" with a history entry; it is then the rendering of the sent envelope, or of the received envelope when there is one |
| Executor.KwArgs | onvif_client/command_executor.py:60-63 | keyword arguments are passed exactly when `params` is present and non-empty |
| Executor.Captured | onvif_client/command_executor.py:40 | the history after one call holds an exchange exactly when a request was sent, and that exchange is the request with the reply, if any |
| Executor.Record | onvif_client/command_executor.py:40 | recording the sent and received envelopes into a fresh one-entry history gives `Captured` of the call |
| Executor.Complete | onvif_client/command_executor.py:59-89 | after the call: the captured request and reply XML in every case; the failure envelope with what the call or `serialize_object` raised; otherwise the normalised result and the call's time; `success` holds exactly when both got through |
| Executor.Execute | onvif_client/command_executor.py:17-89 | the envelope is exactly the one `Executed` fixes: a failed construction, binding or operation lookup gives the failure envelope with its message (for a missing binding, a text that depends on the parsed document) and an empty capture; otherwise the call is made with keyword arguments exactly when `params` is non-empty and `Complete`'s envelope follows; `success` holds exactly when every step gets through; a success has no error and a normal result; a failure has no result and zero time |
| Executor.ExecutedUnique | onvif_client/command_executor.py:17-89 | `Executed` admits exactly one envelope for given inputs, so it determines request XML, response XML, error, result and time |
| Profiles.SupportedIff | onvif_client/profile_checker.py:142-146 | a profile is supported exactly when every namespace it requires is offered by some discovered service |
| Profiles.ProfileSupport | onvif_client/profile_checker.py:142-146 | there is one flag per profile of the table |
| Profiles.NothingOfferedNothingSupported | onvif_client/profile_checker.py:15-74 | every profile requires at least one namespace, so no services means no profile is supported |
| Profiles.ProfileImplications | onvif_client/profile_checker.py:15-74 | Profile A implies Profile C, and Profile M implies Profile T |
| Profiles.PartText | onvif_client/profile_checker.py:126-130 | a version part is written as "" exactly when the attribute is missing, as `None` when it is null (zeep with `strict = False`), and as text that reads back as the number otherwise; it never holds a `.` |
| Profiles.VersionText | onvif_client/profile_checker.py:126-130 | the version text splits at its one `.` into exactly the major part's text and the minor part's text |
| Profiles.RecordService | onvif_client/profile_checker.py:120-137 | a record yields a service exactly when its namespace is present and non-empty, keeping its namespace and its address (default ""); it has a version exactly when the record does, and that version is the `Major.Minor` text `VersionText` writes |
| Profiles.RecordNamespaces | onvif_client/profile_checker.py:120-137 | the namespaces found are exactly those of the records that have one; records are never invented |
| Profiles.MapServices | onvif_client/profile_checker.py:120-137 | the loop over the GetServices response yields exactly `ServicesFromRecords` |
| Profiles.ServicesFromRecords | onvif_client/profile_checker.py:120-137 | there is at most one service per record, and every service has a non-empty namespace |
| Profiles.FromTable | onvif_client/profile_checker.py:169-201 | there is at most one service per table entry, none with a version |
| Profiles.FromTableNamespaces | onvif_client/profile_checker.py:169-201 | a table namespace is reported exactly when its category is present |
| Profiles.AppendPresent | onvif_client/profile_checker.py:176-201 | a table loop appends exactly `FromTable`, one versionless service per present category in table order, after the services already collected |
| Profiles.FallbackWithoutExtension | onvif_client/profile_checker.py:185-201 | without the Extension, the fallback never reports the recording namespace |
| Profiles.CheckViaCapabilities | onvif_client/profile_checker.py:164-204 | the two table loops yield exactly `CapabilityServices` (a failed GetCapabilities gives no services), none with a version |
| Profiles.CapabilityServices | onvif_client/profile_checker.py:164-204 | a failed GetCapabilities gives no services; without the Extension there are at most five, and at most nine in all; none has a version |
| Profiles.DeviceXaddr | onvif_client/profile_checker.py:99-100 | the device address starts with `https://` when TLS is asked for and `http://` otherwise, and ends with `/onvif/device_service` |
| Profiles.Check | onvif_client/profile_checker.py:80-162 | the device is reached at `DeviceXaddr`; an error while building the client or the device proxy gives the failure envelope with the full profile table; otherwise the result is a success whose services come from GetServices or, if that raised, from the fallback, never merged, with each profile's flag |
| Profiles.SilentDeviceLooksEmpty | onvif_client/profile_checker.py:120-162 | when both GetServices and GetCapabilities raise, the discovered services are empty and no profile is supported (which `check` reports under `success`) |
| Profiles.CheckReachable | onvif_client/profile_checker.py:111-162 | corrected check: `success` holds exactly when the proxy was built and the device answered at least one discovery call; a silent device gives the failure envelope with the GetServices error; otherwise as `check` |
| App.WholeSeconds | app.py:43 | `int(total_seconds())` truncates toward zero: the seconds are bounded by the microsecond total on the side of zero (exact arithmetic; see Left out) |
| App.DurationParts | app.py:44-45 | `h*3600 + m*60 + s` equals the total, with `0 <= m, s < 60` |
| App.DurationText | app.py:46 | the text starts with `PT` and ends with `S` |
| App.DurationTextFields | app.py:46 | `H` appears exactly when the hours are non-zero, and `M` exactly when the hours or the minutes are |
| App.DurationTextRoundTrip | app.py:42-46 | the `PT…S` text of every whole number of seconds reads back as that number |
| App.DurationTextExamples | app.py:46 | 45, 90, 3725, 3600 and 0 seconds give `PT45S`, `PT1M30S`, `PT1H2M5S`, `PT1H0M0S` and `PT0S` |
| App.ProviderDefault | app.py:34-53 | elements go through the element rule; dates and times become `isoformat()` text; a duration becomes exactly `DurationText` of its whole seconds, which reads back as those seconds; decimals become floats; bytes are decoded; sets become lists; any other value becomes its `str()` text |
| App.FieldGiven | app.py:84-87 | a trimmed field is non-empty exactly when the key is present and its value is not all whitespace |
| App.ApiLoadWsdl | app.py:80-93 | a blank URL gives 400 "WSDL URL is required"; a load error gives 500 with its text; otherwise 200 with the listing and the client cached; the cache stays valid |
| App.ApiOperationParams | app.py:96-112 | any blank field gives 400 "Missing required fields"; a cached URL gives 200 with its descriptors and leaves the cache unchanged; an uncached URL gives 500 with the construction error and leaves the cache unchanged, or 200 with the new document's descriptors and the new client stored under the URL |
| App.ApiExecuteAsWritten | app.py:115-154 | an unreadable `camera_port` raises outside the handler (500); a missing field gives 400 |
| App.CameraPort | app.py:124 | a missing port reads as 80; `null` and blank text cannot be read (the route then fails with 500); `true` and `false` read as 1 and 0 |
| App.PortTextReads | app.py:124 | the decimal text of any integer reads as that port |
| App.AsWrittenNeverExecutes | app.py:133-154 | as written, no request gets a successful envelope: every well-formed request ends in the `use_https` TypeError envelope with status 500 |
| App.ApiExecute | app.py:115-154 | corrected route: same port and field checks; then 200 with the envelope `Executed` fixes for the request's fields, port and params (request and response XML, error text, result value and time); `success` holds exactly when the execution succeeds; a success has no error and a normal result; a failure has no result and zero time |
| App.Dispatch | app.py:133-145 | the executor call answers 200 with the envelope `Executed` fixes (request and response XML, error text, result value and time); `success` matches `Succeeds` and holds exactly when there is no error; a success carries a normal result; a failure carries none and zero time |
| ParamBuilder.CastValue | static/js/param-builder.js:178-189 | a boolean holds exactly when the text is "true"; integer and float go through `parseInt`/`parseFloat`; any other type keeps the text; the result is never an object |
| ParamBuilder.FullName | static/js/param-builder.js:32 | with no prefix the result is the name itself; otherwise it is the prefix, a `.`, then exactly the name |
| ParamBuilder.FullNamePath | static/js/param-builder.js:32 | splitting a full name at `.` gives the prefix's parts followed by the name's parts |
| ParamBuilder.SimpleFieldInput | static/js/param-builder.js:20-24 | a non-fieldset descriptor gives exactly one input, named by its full name and typed by its type |
| ParamBuilder.FieldInputsNamed | static/js/param-builder.js:93-131 | a leaf's input carries its full name; a fieldset's inputs are all named under the fieldset's full name |
| ParamBuilder.FormInputsNested | static/js/param-builder.js:13-26 | under a non-empty prefix, every input name lies under that prefix |
| ParamBuilder.FreshWritable | static/js/param-builder.js:159-166 | every path can be written into an empty object |
| ParamBuilder.SetPath | static/js/param-builder.js:159-169 | a store keeps the top-level keys and adds the path's first part; when it throws, the error is a TypeError and the path has at least three parts |
| ParamBuilder.SetThenGet | static/js/param-builder.js:159-169 | writing along a writable path succeeds, and reading the path back gives the stored value |
| ParamBuilder.PrimitiveBlocks | static/js/param-builder.js:161-166 | when a truthy primitive sits on the path before its last key, the walk either leaves the object unchanged or throws a TypeError (a store into `undefined`, or a lookup in it) |
| ParamBuilder.SetPathFrame | static/js/param-builder.js:159-169 | a store changes nothing along any path that diverges from the stored one |
| ParamBuilder.LaterStoreWins | static/js/param-builder.js:168-169 | storing twice at one path is the same as storing the second value once |
| ParamBuilder.SharedPrefixMerges | static/js/param-builder.js:161-166 | `a.b` and then `a.c` give one object under `a` that holds both |
| ParamBuilder.BlankAddsNothing | static/js/param-builder.js:155-156 | an input whose trimmed value is empty adds nothing to the result |
| ParamBuilder.SameNameLaterWins | static/js/param-builder.js:154-170 | of two non-blank inputs with the same name, the later one's value is what remains |
| ParamBuilder.LaterInputWins | static/js/param-builder.js:154-170 | for two non-blank inputs with the same name, however many inputs lie between them, reading the path gives the later one's cast value whenever the path is still writable |
| ParamBuilder.FirstInputFound | static/js/param-builder.js:154-170 | a single non-blank input can be read back at its dotted path as its cast value |
| ParamBuilder.PrefixErrorPersists | static/js/param-builder.js:150-173 | once an input throws, the whole collection ends in that error |
| ParamBuilder.Collect | static/js/param-builder.js:150-173 | when collecting throws, the error is a TypeError |
| ParamBuilder.CollectKeys | static/js/param-builder.js:150-173 | the result's top-level keys are exactly the first name parts of the non-blank inputs |
| ParamBuilder.CollectParams | static/js/param-builder.js:150-173 | the loop over the inputs yields exactly `Collect`: each non-blank input is stored in order, and the first TypeError ends the walk |

## Left out

- Python dict insertion order: JSON objects are modelled as maps, so key order in the output is not represented.
- zeep internals: WSDL fetching and parsing, `CachingClient`, `UsernameToken`, `create_service`, the SOAP call and `serialize_object` are parameters (outcomes or oracle functions).
- Transport, TLS, timeouts and HTTP status codes from the camera are left out. The model sees a call only as success or the text of what it raised.
- The history plugin's own bookkeeping is reduced to its `maxlen=1` behaviour.
- Executor.Execute: an element's children are elements only. lxml also yields comment and processing-instruction children, whose tag is not a string, so `_element_to_dict` raises TypeError at onvif_client/serializer.py:46-48 and `execute` answers with the failure envelope. In the model, normalisation fails only when `serialize_object` raises.
- Executor.Execute: `execution_time_ms` is a real-valued parameter (the rounded clock difference). The clock is not modelled, and no bound on it is stated.
- The text of library formatting is left out: `isoformat()`, `str()` of durations and other objects, `float(Decimal)`, UTF-8 decoding with replacement, and `etree.tostring` are oracles.
- Floating point is not modelled: `float(Decimal)`, `parseFloat` and the elapsed time are opaque values.
- App.WholeSeconds: `total_seconds()` is a double, and floating point is not modelled. From about 2^35 seconds on, the double can round. For example, 2^35·10^6 − 1 microseconds becomes exactly 2^35 seconds in the source, one second more than the exact truncation stated here.
- App.CameraPort: Python's `int()` also accepts underscores between digits ("8_0") and non-ASCII decimal digits. Such a port cannot be read here, so the route answers 500 where the source goes on. A float `camera_port` is not modelled.
- App.ApiExecute: the request body is a map of string fields plus the port, params and `use_https`. A non-string JSON value in a string field, a `null` body and a float `camera_port` are not modelled. Nor is a `params` value that is not an object: a non-empty list or string makes `operation_func(**params)` raise TypeError inside `execute`'s try (onvif_client/command_executor.py:60-61), which gives the failure envelope, and a falsy `[]` or `0` makes the call with no arguments.
- App.ApiExecuteAsWritten: the failure envelope's `execution_time_ms` is the integer 0, which the model writes as 0.0.
- `/`, `/api/presets` and the start-up code are left out: they render a template, return the preset list, and pick a port or a PyInstaller base path.
- Flask's routing, request parsing and `jsonify` are left out; a route is a method from the request's fields to a status and body.
- The page script in `static/js/app.js` is not part of this model: it wires the forms to the API with DOM events.
- The DOM is not modelled. The form builder is modelled by the inputs it creates (name and type, in document order), not by the elements, labels, enum dropdowns or collapse toggles it draws.
- ParamBuilder.CastValue: JavaScript's `parseInt`/`parseFloat` are oracles, so the contract fixes only which one is used.
- ParamBuilder.SetPath: JavaScript object aliasing is not modelled. The walk of the `current` reference is a function on nested values. A truthy primitive on the path is modelled (`Blocked`), but not the properties it really has: a string's `length` and index keys, and prototype methods such as `toString` or `valueOf` on any value, including plain objects. Any of these makes `!current[k]` false, so the walk continues into it where `SetPath` reports an error or creates a fresh object.
- Concurrency is left out: Flask's threaded request handling and the shared loader cache are modelled as one caller at a time.

## Findings

| source | as written | input that shows it | evidently intended | confidence | as-written member | corrected member |
|---|---|---|---|---|---|---|
| app.py:133-154 | the route calls `execute(..., use_https=use_https)`, but `execute` (onvif_client/command_executor.py:17-27) has no `use_https` parameter, so the call raises TypeError before anything runs, and the handler answers 500 | any request whose `camera_port` reads as an integer and whose five required fields are non-blank | call `execute` with the parameters it declares and return its envelope with status 200 | high (not executed) | App.ApiExecuteAsWritten | App.ApiExecute |
| onvif_client/profile_checker.py:120-162, 202-203 | only building the client and the proxy can fail the check; a GetServices error turns into the fallback, and the fallback swallows a GetCapabilities error, so a device that cannot be reached or refuses the credentials is reported with `success` true, no services and every profile false | a device whose GetServices and GetCapabilities both raise (for instance, nothing listening at the address) | a check that never got an answer from the device should not report `success`: it should give the failure envelope with the error, empty services and empty profiles | medium (not executed) | Profiles.SilentDeviceLooksEmpty | Profiles.CheckReachable |
