# Grounds core in Dafny

Grounds is a multiplayer text-world (MUD) server. Its state lives in things that carry typed, named
attributes. Plugins extend the server over JSON-RPC; each one answers a single call from a player.
This project models the parts of Grounds that decide what a call does, and proves properties of them.

**Go plugins**
- The plugin API (`plugins/grounds-api-go`), modelled in `go_api.dfy` and `attr_json.dfy`:
  - the call envelope and the dispatcher;
  - the remote attribute store's client contract;
  - the attribute-list encoding.
- The chat plugin (`plugins/chat`), modelled in `chat.dfy`: channels, their membership, and the role- and
  player-based rules for who may see and join a channel.
- The events plugin (`plugins/events`), modelled in `events.dfy`: creating, listing and deleting
  calendar events.

**Java server core**
- Attributes and things: `attr_model.dfy` and `thing.dfy`.
- The actor database: `actor_database.dfy`.
- Permission policies and their change instructions: `policy.dfy` and `change_policy.dfy`.
- The command tokenizer and its aliases: `commands.dfy`.
- JSON-RPC responses: `json_rpc_response.dfy`.
- Mailboxes: `mailbox.dfy`.
- Table and record output: `tabular_output.dfy` and `record_output.dfy`.
- ANSI-aware strings: `ansi_string.dfy`.
- The "%xy" message markup: `markup.dfy`.
- The Grapple combat system: `grapple_stats.dfy`, `grapple_team.dfy`, `grapple_engine.dfy`,
  `grapple_npc.dfy`, plus the dice rules in `rules.dfy`.
- Shared definitions are in `base.dfy`:
  - the Option and Result types;
  - Go- and Java-style split, join and trim;
  - decimal text;
  - 32-bit Java integers.

**How the source maps into Dafny**
- Code that mutates objects becomes a Dafny `class`. Its methods say exactly what the new state is.
- Go handlers that talk to the store take a `Remote` object. It holds the stored attributes, the
  caller, the roles, and a log of the calls made.
- Pure code becomes functions. Loops in the source stay loops in methods, each proved against a
  function.
- A thrown exception or a returned Go error becomes a `Failure` carrying the source's message.
- Dice rolls, clocks, colouring and other outside services are parameters.

## Model

| member | source | states |
|---|---|---|
| GoApi.ParamsMap | plugins/grounds-api-go/plugin.go:110-114 | the parameters decode into a map exactly when they are a JSON object or null; any other kind is the unmarshal error |
| GoApi.FirstNonString | plugins/grounds-api-go/plugin.go:139-146 | the index reported is that of a non-string element with only strings before it |
| GoApi.Strings | plugins/grounds-api-go/plugin.go:138-148 | one argument per element, each the element's text, in order |
| GoApi.CollectArguments | plugins/grounds-api-go/plugin.go:135-149 | the append loop yields every element's text in order, or the error naming the first element that is not a string and its Go type |
| GoApi.StringsAppend | plugins/grounds-api-go/plugin.go:142 | appending one more string element appends its text to the arguments |
| GoApi.NewPluginCallShape | plugins/grounds-api-go/plugin.go:110-155 | a call decodes exactly when the call ID and extension ID are strings and the arguments a list of strings; the call then carries those values and the request's method |
| GoApi.CheckArgumentCount | plugins/grounds-api-go/plugin.go:157-163 | no error exactly when the argument count equals the expected one |
| GoApi.CheckArgumentCountAtLeast | plugins/grounds-api-go/plugin.go:165-171 | no error exactly when there are at least the expected number of arguments |
| GoApi.Handle | plugins/grounds-api-go/plugin.go:30-82 | every answer carries the request's ID; a method mismatch is -32601 "Unrecognized method"; a call that does not decode is -32602 "Invalid plugin call: ..." |
| GoApi.HandleOutcomes | plugins/grounds-api-go/plugin.go:30-82 | a result comes back exactly when the method matches, the call decodes with an argument, a handler is found and returns a value, and it is that value; -32601 exactly for a method mismatch, -32602 exactly for a bad call, no argument or unknown subcommand, -32603 exactly when a handler ran without a result, carrying the handler's message when it failed |
| GoApi.NewStringAttr | plugins/chat/main.go:89-93 | a string attribute with the given name and value |
| GoApi.NewAttrListAttr | plugins/chat/main.go:94-103 | an attribute-list attribute with the given name |
| GoApi.NewAttrListAttrReadsBack | plugins/grounds-api-go/api_methods.go:133-140 | the value of an attribute-list attribute decodes back to the list it was made from |
| GoApi.MapOfList | plugins/grounds-api-go/api_methods.go:133 | the names in the map are exactly the names in the list, each mapped to an attribute of that name |
| GoApi.MapOfListSnoc | plugins/grounds-api-go/api_methods.go:138 | a later entry of the same name replaces the earlier one in the map |
| GoApi.GetAttrListValue | plugins/grounds-api-go/api_methods.go:133-136 | the value reads as a map exactly when it decodes as an attribute list |
| GoApi.FindFirst | plugins/chat/main.go:36 | finds an entry exactly when one has the name, and it is the first such entry |
| GoApi.GetAttrInAttrListValue | plugins/chat/main.go:36-39 | a sub-attribute found by name has that name |
| GoApi.Remote.GetAttr | plugins/grounds-api-go/api_methods.go:24-36 | logs one getAttr call, changes no stored attribute, and answers with the stored attribute, the not-found error, or the server's refusal |
| GoApi.HasAttrAnswer | plugins/grounds-api-go/api_methods.go:14-21 | true exactly when the read succeeds, false exactly for the not-found code, and any other error is passed on unchanged |
| GoApi.Remote.HasAttr | plugins/grounds-api-go/api_methods.go:7-22 | one getAttr call with the same flag, and the answer HasAttrAnswer gives for the server's reply |
| GoApi.Remote.SetAttr | plugins/grounds-api-go/api_methods.go:117-126 | sends the attribute's name, value and type unchanged with the flag; unless refused, the stored attribute under that name is replaced and nothing else changes |
| GoApi.Remote.RemoveAttr | plugins/grounds-api-go/api_methods.go:108-115 | unless refused, exactly that attribute is removed |
| GoApi.Remote.GetAttrNames | plugins/grounds-api-go/api_methods.go:38-49 | unless refused, each of the thing's attribute names exactly once |
| GoApi.Remote.GetCallerName | plugins/grounds-api-go/api_methods.go:51-58 | the caller's name, or the server's refusal |
| GoApi.Remote.GetRoles | plugins/chat/main.go:116 | the player's roles, the not-found error, or the server's refusal; nothing stored changes |
| GoApi.Remote.SendMessageToCaller | plugins/grounds-api-go/api_methods.go:77-82 | logs the message; fails with the server's error exactly when the server refuses it; changes nothing stored |
| GoApi.Remote.SetAttrInAttrListValue | plugins/grounds-api-go/api_methods.go:128-145 | reads with the given flag first; a failed read or decode ends with that error and no write; otherwise it writes, with the same flag, an attribute list whose entries by name are the old ones with the sub-attribute put in, and the store changes only when that write is accepted, and the error is exactly that write's refusal |
| GoApi.ListOfMap | plugins/grounds-api-go/api_methods.go:140 | the list built from the map holds each of its attributes exactly once and keys back to the same map |
| AttrJson.StringRoundTrip | plugins/grounds-api-go/api_methods.go:133-140 | a JSON string literal parses back to the text it encodes, leaving the rest of the input |
| AttrJson.FieldRoundTrip | plugins/grounds-api-go/api_methods.go:133-140 | a "key":"value" member parses back to its value |
| AttrJson.EntryRoundTrip | plugins/grounds-api-go/api_methods.go:133-140 | an encoded attribute object parses back to the same name, value and type |
| AttrJson.ListRoundTrip | plugins/grounds-api-go/api_methods.go:133-140 | an encoded attribute list decodes back to the same list |
| Chat.DecodeField | plugins/chat/main.go:40-42 | an empty field is the empty list; any other field is its comma-separated pieces |
| Chat.FieldTextRoundTrip | plugins/chat/main.go:40-42 | re-joining a decoded field gives back the stored text |
| Chat.FieldListRoundTrip | plugins/chat/main.go:88-108 | a comma-free list written with commas reads back as the same list exactly when it is not the list holding one empty name |
| Chat.Contains | plugins/chat/main.go:79-86 | true exactly when the name is in the list |
| Chat.AnyRoleListedMeaning | plugins/chat/main.go:115-134 | the role loop succeeds exactly when some role of the caller is among the listed roles |
| Chat.AccessMeaning | plugins/chat/main.go:110-151 | access is granted exactly when the caller is GOD, or when (no roles are listed, or the role lookup succeeded and shares a role with the list) and (no players are listed, or the caller is listed) |
| Chat.RoleLookupFailureDenies | plugins/chat/main.go:115-121 | when roles are listed and the role lookup fails, a caller other than GOD is denied |
| Chat.IndexOf | plugins/chat/main.go:202-211 | the index of the first occurrence of the name |
| Chat.RemoveFirstMeaning | plugins/chat/main.go:202-211 | removing a member drops exactly its first occurrence and leaves the list unchanged when it is absent |
| Chat.FieldOf | plugins/chat/main.go:36-42 | a field reads exactly when the channel attribute holds a sub-attribute of that name |
| Chat.FieldAttrs | plugins/chat/main.go:89-93 | one string attribute per field, named as given, whose value is the comma-joined list |
| Chat.ChannelAttrFields | plugins/chat/main.go:88-108 | the stored channel decodes to exactly five string attributes, in order: members, visibility roles, joinability roles, visibility players, joinability players, each the comma-joined list |
| Chat.Channel.constructor | plugins/chat/main.go:231-250 | a channel with the given name and every list empty |
| Chat.Channel.FillFromAttr | plugins/chat/main.go:35-77 | succeeds exactly when all five fields are present, else fails with the first missing field's error; each field read before the failure replaces its list (an empty field leaving the list as it was) and the name never changes |
| Chat.Channel.FillAccessFromAttr | plugins/chat/main.go:43-76 | the four access fields, read in order, with the same success condition and first-error rule; the name and members stay |
| Chat.Channel.FillPair | plugins/chat/main.go:43-76 | reads two fields of one kind: fails with the first missing one's error, fills both lists on success, and leaves the other kind's lists, the name and members alone |
| Chat.Channel.IsMember | plugins/chat/main.go:79-86 | true exactly when the name is among the members |
| Chat.Channel.CheckSee | plugins/chat/main.go:110-151 | the answer is the visibility verdict on the server's role answer; only the role lookup is added to the calls, and only when roles are listed and the caller is not GOD |
| Chat.Channel.CheckJoin | plugins/chat/main.go:153-194 | the answer is the joinability verdict on the server's role answer, with the same calls |
| Chat.Channel.AddMember | plugins/chat/main.go:196-200 | the name is appended to the members and nothing else in the channel changes; a failed read or decode of the channel attribute is the error, with nothing written; otherwise the members are written back as the extension and the error is exactly the write's refusal, so it succeeds exactly when the server accepts the write, leaving the stored channel holding the new members, and the store is untouched on failure |
| Chat.Channel.DropMember | plugins/chat/main.go:202-211 | the members lose the first occurrence of the name and nothing else changes |
| Chat.Channel.RemoveMember | plugins/chat/main.go:202-211 | the members lose the first occurrence of the name, as DropMember; the error is the failed read's or decode's, else exactly the members write's refusal, so it succeeds exactly when that write is accepted, leaving the stored channel holding the new members, and the store is untouched on failure |
| Chat.ValidChannelName | plugins/chat/main.go:231-235 | a channel name is valid exactly when it is not empty and starts with '#'; on names the original accepts it agrees with it |
| Chat.EmptyChannelNamePanics | plugins/chat/main.go:232 | the empty name, which the original indexes at 0, is the one input on which it has no answer, and it is invalid |
| Chat.ChannelAnswer | plugins/chat/main.go:231-250 | an invalid name is refused with "That is not a valid channel name" before the server is asked |
| Chat.GetChannel | plugins/chat/main.go:231-250 | reads the channel attribute only for a valid name; fails exactly when the lookup or decoding fails, with that error; otherwise a new channel with the name and the five stored lists; nothing stored changes |
| Chat.HasChannel | plugins/chat/main.go:221-229 | true exactly when the channel reads, false exactly for the not-found error, any other error passed on |
| Chat.ChannelNamesAppend | plugins/chat/main.go:252-264 | filtering names for channels distributes over concatenation |
| Chat.ChannelNamesMembers | plugins/chat/main.go:252-264 | the filtered names are exactly the given names that are valid channel names |
| Chat.ListChannelNames | plugins/chat/main.go:252-264 | one getAttrNames call; succeeds exactly when it is not refused, and then lists exactly the stored attribute names that are valid channel names |
| Chat.AccessArgsAccepted | plugins/chat/main.go:596-607 | the arguments are accepted exactly when every one starts with "roles=" or "players=" |
| Chat.AccessArgsError | plugins/chat/main.go:596-607 | a rejection is "Unsupported argument " followed by the first unsupported argument |
| Chat.AccessArgsLists | plugins/chat/main.go:596-607 | on acceptance the roles and players are those of the last argument of each kind, or the current lists when there is none |
| Chat.AccessArgsMeaning | plugins/chat/main.go:596-607 | the three facts above together |
| Chat.LastListSkip | plugins/chat/main.go:598-606 | an argument of the other kind leaves the list being built unchanged |
| Chat.LastListTake | plugins/chat/main.go:598-606 | an argument of this kind replaces the list by its comma-split value |
| Chat.Verdict | plugins/chat/main.go:330-341 | a caller is admitted only when not yet a member, and told "already a member" only when one |
| Chat.VerdictMeaning | plugins/chat/main.go:330-341 | the channel is hidden exactly when visibility is denied, off limits exactly when visible but not joinable, and GOD is always admitted or already a member |
| Chat.JoinAs | plugins/chat/main.go:330-347 | hidden and off-limits channels fail with their messages and change nothing stored; a member is only told so; an admitted caller is appended to the members, and the handler returns "" exactly when the channel reads, decodes and its members write is accepted, otherwise failing with that step's error; on success the stored channel holds the new members |
| Chat.Admit | plugins/chat/main.go:343-347 | addMember as the extension: the read's or decode's error, else the members write's refusal, is the handler's failure, and "" is returned exactly when the write is accepted, which stores the new members |
| Chat.HandleJoin | plugins/chat/main.go:317-348 | checks for exactly two arguments first; a channel or caller-name failure is returned unchanged; otherwise the verdict on the stored channel decides, as in JoinAs: an admitted caller's join returns "" exactly when the server accepts the members write and fails with its refusal otherwise |
| Chat.WriteBack | plugins/chat/main.go:609-618 | writes the channel's five lists as one attribute-list attribute under its name; the handler succeeds with "" exactly when the server accepts the write |
| Chat.UpdateVisibility | plugins/chat/main.go:596-618 | unsupported arguments fail before any write; otherwise the channel is written back with the new visibility lists and every other list as it was |
| Chat.UpdateJoinability | plugins/chat/main.go:633-655 | the same for the joinability lists |
| Chat.HandleSetVisibility | plugins/chat/main.go:585-620 | needs at least three arguments; then the channel lookup, argument parsing and write back happen in that order, and each failure ends the handler with its error and no change |
| Chat.HandleSetJoinability | plugins/chat/main.go:622-657 | the same for joinability |
| Events.GetEventName | plugins/events/main.go:23-25 | the stored name is '#' followed by the event's name |
| Events.EventNameRoundTrip | plugins/events/main.go:23-25 | stripping the '#' gives the name back, and every '#'-name is the stored name of its rest |
| Events.LastValueMeaning | plugins/events/main.go:41-56 | a text field is the value of the last entry with that name, or stays as it was when there is none |
| Events.FirstBadStart | plugins/events/main.go:43-47 | the first entry named startTimestamp whose value is not a 64-bit integer, with only well-formed start times before it |
| Events.FirstBadStartAt | plugins/events/main.go:43-47 | a bad start time with only good ones before it is the one FirstBadStart finds, and the attribute fails to read |
| Events.Event.constructor | plugins/events/main.go:158-160 | an event with the given name and every other field empty |
| Events.Event.FillFromAttr | plugins/events/main.go:35-58 | a value that is not a JSON attribute list is the unmarshal error; otherwise the fill succeeds exactly when every startTimestamp entry parses, fails with the parse error of the first that does not, and on success each field is the last value given for it, unknown names being ignored |
| Events.Event.FillFromEntries | plugins/events/main.go:41-56 | the loop over the decoded entries, with the same success condition, error and field values |
| Events.NewEventAttr | plugins/events/main.go:95-102 | an attribute-list attribute named after the event |
| Events.NewEventAttrDecodes | plugins/events/main.go:95-102 | its value decodes back to the four entries description, startTimestamp, location and owner |
| Events.NewEventStartReadsBack | plugins/events/main.go:95-102 | reading a newly made event back, its start time parses and is the start it was made with |
| Events.NewEventTextReadsBack | plugins/events/main.go:95-102 | reading a newly made event back gives the owner, description and location it was made with |
| Events.NewEventReadsBack | plugins/events/main.go:95-102 | the two facts above together: creating and then reading an event is the identity on its fields |
| Events.HandleCreateEvent | plugins/events/main.go:60-118 | exactly five arguments are needed; an event that exists already is refused with "Event '#name' already exists" and nothing changes; a refused caller lookup or an unparsed start fails with the store unchanged; otherwise the event attribute is written unless the write is refused (failing with the store unchanged), then the caller is told "Created event 'name'", and the handler succeeds exactly when neither the write nor that message is refused; a refused message fails with the event already stored |
| Events.StoreNewEvent | plugins/events/main.go:71-117 | the part after the existence check: a refused caller lookup or unparsed start fails with the store unchanged; a refused write fails with the write's error and the store unchanged; an accepted write stores the new event under its '#'-name, and the result is success exactly when the "Created event" message is not refused, else that message's error |
| Events.EventNames | plugins/events/main.go:138-143 | exactly the given names that start with '#' |
| Events.EventNamesDistinct | plugins/events/main.go:134-143 | filtering the distinct names the server lists for '#'-names keeps them distinct |
| Events.InsertByStart | plugins/events/main.go:167-169 | inserting into a list sorted by start time keeps it sorted and adds exactly the one row |
| Events.HeadStaysFirst | plugins/events/main.go:167-169 | a row that starts no later than the inserted one stays no later than every row after it |
| Events.SortByStart | plugins/events/main.go:167-169 | the rows sorted ascending by start time, a permutation of the input |
| Events.ReadEvent | plugins/events/main.go:153-166 | a failed read fails with the read's error; the read succeeds exactly when the stored event reads as a row (an attribute list whose start times all parse), and then the row is that one: named after the '#'-name without its '#', with the last stored start time |
| Events.ReadEvents | plugins/events/main.go:153-166 | succeeds exactly when every name's stored event reads as a row, and then gives those rows, one per name, in order |
| Events.ListEvents | plugins/events/main.go:134-169 | succeeds exactly when the name listing is not refused and every stored '#'-name reads as a row; the listing then holds each stored event's own row (name and stored start time), exactly one per stored '#'-name (names distinct, every one present), sorted by start time |
| Events.Listed | plugins/events/main.go:152-169 | the rows read for the '#'-names, sorted by start time: the stored rows, each name once, every stored event present |
| Events.HandleDeleteEvent | plugins/events/main.go:252-288 | exactly two arguments are needed; a missing event is "Event '#name' does not exist"; the store changes only when the event decodes and has an owner field equal to the caller; a refused caller lookup, an undecodable event, "Event is missing an owner" and "You are not the owner" all fail with the store unchanged, and a refused removal fails with the store unchanged; after a removal the handler succeeds exactly when the "Deleted event" message is not refused; the only failure that changes the store is that refused message, with the event already removed |
| ActorDatabaseModel.PutPreference | src/main/java/xyz/deszaras/grounds/server/ActorDatabase.java:136-142 | a null value removes the preference, any other value is stored under its name, and every other preference is untouched |
| ActorDatabaseModel.PreferenceRoundTrip | src/main/java/xyz/deszaras/grounds/server/ActorDatabase.java:136-142 | setting a new preference and then setting it to null gives back the original preferences |
| ActorDatabaseModel.PlayerSetSemantics | src/main/java/xyz/deszaras/grounds/server/ActorDatabase.java:92-98 | adding a player twice is adding once, removing twice is removing once, removing a newly added player restores the record, and afterwards the player is present or absent respectively |
| ActorDatabaseModel.ActorRecord.constructor | src/main/java/xyz/deszaras/grounds/server/ActorDatabase.java:47-53 | a record with the username and password, no players, no address or times, and no preferences |
| ActorDatabaseModel.ActorRecord.AddPlayerId | src/main/java/xyz/deszaras/grounds/server/ActorDatabase.java:92-94 | the player joins the set and nothing else in the record changes |
| ActorDatabaseModel.ActorRecord.RemovePlayerId | src/main/java/xyz/deszaras/grounds/server/ActorDatabase.java:96-98 | the player leaves the set and nothing else in the record changes |
| ActorDatabaseModel.ActorRecord.SetPreferenceValue | src/main/java/xyz/deszaras/grounds/server/ActorDatabase.java:136-142 | null removes the name from the preferences, any other value is put under it, nothing else changes |
| ActorDatabaseModel.ActorRecord.Mutate | src/main/java/xyz/deszaras/grounds/server/ActorDatabase.java:83-142 | running one setter leaves the record in the state Apply gives for it |
| ActorDatabaseModel.ActorDatabase.constructor | src/main/java/xyz/deszaras/grounds/server/ActorDatabase.java:173 | an empty table |
| ActorDatabaseModel.ActorDatabase.CreateActorRecord | src/main/java/xyz/deszaras/grounds/server/ActorDatabase.java:225-235 | creates exactly when the username is new, adding a new record with that password and nothing else; an existing username changes nothing |
| ActorDatabaseModel.ActorDatabase.GetActorRecord | src/main/java/xyz/deszaras/grounds/server/ActorDatabase.java:237-243 | the username's record, or nothing exactly when there is none |
| ActorDatabaseModel.ActorDatabase.UpdateActorRecord | src/main/java/xyz/deszaras/grounds/server/ActorDatabase.java:253-265 | true exactly when the user exists, the mutation is then applied to that record, and every other record keeps its state |
| ActorDatabaseModel.ActorDatabase.RemoveActorRecord | src/main/java/xyz/deszaras/grounds/server/ActorDatabase.java:267-273 | the username leaves the table, every other record stays, and a missing username changes nothing |
| JsonRpcResponse.NewResponse | src/main/java/xyz/deszaras/grounds/api/JsonRpcResponse.java:29-47 | a response is made exactly when jsonrpc is "2.0", exactly one of result and error is given and the id is null, a string or a number; otherwise the first failing check's IllegalArgumentException, with its message |
| JsonRpcResponse.ConvenienceConstructors | src/main/java/xyz/deszaras/grounds/api/JsonRpcResponse.java:55-67 | the result and error constructors succeed exactly when the id is allowed, and give a successful and an unsuccessful response respectively |
| JsonRpcResponse.SuccessfulIffNoError | src/main/java/xyz/deszaras/grounds/api/JsonRpcResponse.java:116-119 | a valid response is successful exactly when it has a result, and exactly when it has no error |
| AttrModel.TypeValueOf | src/main/java/xyz/deszaras/grounds/model/Attr.java:38-45 | Type.valueOf: a type text is accepted only when it is the name of a type |
| AttrModel.TypeNameRoundTrip | src/main/java/xyz/deszaras/grounds/model/Attr.java:38-45 | every type's name reads back as that type |
| AttrModel.NewAttr | src/main/java/xyz/deszaras/grounds/model/Attr.java:51-58 | the name and value are kept, and a missing type defaults to STRING |
| AttrModel.StringAttr | src/main/java/xyz/deszaras/grounds/model/Attr.java:66-68 | a STRING attribute holding the value |
| AttrModel.BooleanAttr | src/main/java/xyz/deszaras/grounds/model/Attr.java:76-78 | a BOOLEAN attribute whose value is "true" or "false" |
| AttrModel.IntAttr | src/main/java/xyz/deszaras/grounds/model/Attr.java:86-88 | an INTEGER attribute whose value is the decimal text of the number |
| AttrModel.ThingAttr | src/main/java/xyz/deszaras/grounds/model/Attr.java:96-98 | a THING attribute whose value is the thing's ID |
| AttrModel.AttrAttr | src/main/java/xyz/deszaras/grounds/model/Attr.java:106-108 | an ATTR attribute whose value is the JSON object of the inner attribute |
| AttrModel.AttrListAttr | src/main/java/xyz/deszaras/grounds/model/Attr.java:116-118 | an ATTRLIST attribute whose value is the JSON array of the list |
| AttrModel.FromEntry | src/main/java/xyz/deszaras/grounds/model/Attr.java:385-391 | an attribute read from JSON gives back the JSON entry it came from |
| AttrModel.FromEntries | src/main/java/xyz/deszaras/grounds/model/Attr.java:400-406 | a list read from JSON has one attribute per entry, each giving back its entry |
| AttrModel.EntriesRoundTrip | src/main/java/xyz/deszaras/grounds/model/Attr.java:370-406 | writing a list of attributes as JSON entries and reading them back gives the list |
| AttrModel.ParseJavaInt | src/main/java/xyz/deszaras/grounds/model/Attr.java:162 | Integer.parseInt: succeeds exactly on 32-bit decimal text, with its value, and fails with NumberFormatException otherwise |
| AttrModel.GetIntValue | src/main/java/xyz/deszaras/grounds/model/Attr.java:158-163 | a type other than INTEGER is exactly the IllegalStateException case; a value read is a 32-bit integer whose text is the stored value |
| AttrModel.GetBooleanValue | src/main/java/xyz/deszaras/grounds/model/Attr.java:172-177 | fails exactly when the type is not BOOLEAN, with IllegalStateException |
| AttrModel.GetThingValue | src/main/java/xyz/deszaras/grounds/model/Attr.java:187-192 | fails exactly when the type is not THING; otherwise the stored ID |
| AttrModel.GetAttrValue | src/main/java/xyz/deszaras/grounds/model/Attr.java:201-206 | a type other than ATTR fails; an inner attribute read is the one the value's JSON describes |
| AttrModel.GetAttrListValue | src/main/java/xyz/deszaras/grounds/model/Attr.java:215-220 | a type other than ATTRLIST fails; a list read is the one the value's JSON describes |
| AttrModel.IntRoundTrip | src/main/java/xyz/deszaras/grounds/model/Attr.java:86-88 | the integer constructor and getter are inverse |
| AttrModel.BooleanRoundTrip | src/main/java/xyz/deszaras/grounds/model/Attr.java:76-78 | the boolean constructor and getter are inverse |
| AttrModel.ThingRoundTrip | src/main/java/xyz/deszaras/grounds/model/Attr.java:96-98 | the thing constructor and getter are inverse |
| AttrModel.AttrRoundTrip | src/main/java/xyz/deszaras/grounds/model/Attr.java:106-108 | the attribute constructor and getter are inverse |
| AttrModel.AttrListRoundTrip | src/main/java/xyz/deszaras/grounds/model/Attr.java:116-118 | the attribute-list constructor and getter are inverse |
| AttrModel.FirstNamed | src/main/java/xyz/deszaras/grounds/model/Attr.java:245-247 | finds an attribute exactly when one has the name, and it is the first such |
| AttrModel.GetAttrInAttrListValue | src/main/java/xyz/deszaras/grounds/model/Attr.java:245-247 | fails exactly when the list cannot be read; otherwise the first sub-attribute with the name, if any |
| AttrModel.ListAsMapMeaning | src/main/java/xyz/deszaras/grounds/model/Attr.java:229-231 | Collectors.toMap succeeds exactly when the names are distinct, and then maps exactly the list's names each to its attribute |
| AttrModel.ListAsMapSnoc | src/main/java/xyz/deszaras/grounds/model/Attr.java:229-231 | one more attribute with a new name extends the map by that entry and keeps the names distinct |
| AttrModel.GetAttrListValueAsMap | src/main/java/xyz/deszaras/grounds/model/Attr.java:229-231 | the list's read error, or the map the list collects to |
| AttrModel.Equals | src/main/java/xyz/deszaras/grounds/model/Attr.java:249-259 | equal exactly when name, type and value are all equal |
| AttrModel.IndexFrom | src/main/java/xyz/deszaras/grounds/model/Attr.java:276-280 | the first position of the character at or after the start, or none when it does not occur there |
| AttrModel.LastIndexBefore | src/main/java/xyz/deszaras/grounds/model/Attr.java:276-278 | the last position of the character before the bound, or none when it does not occur there |
| AttrModel.MatchSpec | src/main/java/xyz/deszaras/grounds/model/Attr.java:276-280 | a typed match splits the spec into a non-empty name without '[', a non-empty type text without ']' and a value; an untyped match into a non-empty name without '[' and a value |
| AttrModel.MatchTyped | src/main/java/xyz/deszaras/grounds/model/Attr.java:276-278 | a match of name[type]=value whose parts join back to the spec |
| AttrModel.TypedSplit | src/main/java/xyz/deszaras/grounds/model/Attr.java:276-278 | the brackets and '=' found split the spec into the three groups of the pattern |
| AttrModel.MatchUntyped | src/main/java/xyz/deszaras/grounds/model/Attr.java:279-280 | a match of name=value whose parts join back to the spec |
| AttrModel.UntypedSplit | src/main/java/xyz/deszaras/grounds/model/Attr.java:279-280 | the '=' found splits the spec into the two groups of the pattern |
| AttrModel.TypedSpecMatches | src/main/java/xyz/deszaras/grounds/model/Attr.java:276-278 | a name without '[' and a non-empty type without ']' written as name[type]=value match back to those parts |
| AttrModel.SpecRoundTrip | src/main/java/xyz/deszaras/grounds/model/Attr.java:272-345 | printing an attribute as a spec and parsing it back gives the attribute, when the name is non-empty without '[' and the value does not name a file with '@' |
| AttrModel.UntypedSpec | src/main/java/xyz/deszaras/grounds/model/Attr.java:319-326 | a spec without '[' that parses is a STRING attribute named by the text before its last '='; one with no '=' after its first character is "Invalid attrSpec" |
| ThingModel.CollectAttrsMeaning | src/main/java/xyz/deszaras/grounds/model/Thing.java:106-108 | the attribute map holds exactly the listed names, each mapped to the last attribute of that name |
| ThingModel.Thing.constructor | src/main/java/xyz/deszaras/grounds/model/Thing.java:78-89 | a thing with the given ID, exactly the NAME and UNIVERSE string attributes and no contents |
| ThingModel.Thing.FromParts | src/main/java/xyz/deszaras/grounds/model/Thing.java:102-117 | the ID, the attributes keyed by name and the contents |
| ThingModel.Thing.GetAttr | src/main/java/xyz/deszaras/grounds/model/Thing.java:203-207 | the attribute of that name, or none exactly when there is none |
| ThingModel.Thing.SetAttr | src/main/java/xyz/deszaras/grounds/model/Thing.java:215-219 | the attribute replaces any of the same name, every other attribute and the contents are unchanged |
| ThingModel.Thing.RemoveAttr | src/main/java/xyz/deszaras/grounds/model/Thing.java:394-398 | the attribute is gone, every other one is unchanged |
| ThingModel.Thing.AddToAttr | src/main/java/xyz/deszaras/grounds/model/Thing.java:318-331 | a missing attribute or one of another type than INTEGER fails and changes nothing; otherwise the stored and returned value is the old one plus the increment, wrapped to 32 bits as Java int addition does |
| ThingModel.Thing.CompareAndSetAttr | src/main/java/xyz/deszaras/grounds/model/Thing.java:346-361 | a missing or non-BOOLEAN attribute fails; otherwise true exactly when the value was the expected one, and only then is the new value written |
| ThingModel.Thing.GetAndSetAttr | src/main/java/xyz/deszaras/grounds/model/Thing.java:374-387 | a missing or non-BOOLEAN attribute fails and changes nothing; otherwise the old value is returned and the new one stored |
| ThingModel.Thing.Has | src/main/java/xyz/deszaras/grounds/model/Thing.java:442-446 | true exactly when the ID is in the contents |
| ThingModel.Thing.Give | src/main/java/xyz/deszaras/grounds/model/Thing.java:453-457 | the ID joins the contents, the attributes are unchanged |
| ThingModel.Thing.Take | src/main/java/xyz/deszaras/grounds/model/Thing.java:464-468 | the ID leaves the contents, the attributes are unchanged |
| ThingModel.Deserialize | src/main/java/xyz/deszaras/grounds/model/Thing.java:102-117 | succeeds exactly when the NAME and UNIVERSE attributes are present, otherwise fails with the message for the first one missing; a thing made holds the ID, attributes and contents |
| ThingModel.DeserializeNeeds | src/main/java/xyz/deszaras/grounds/model/Thing.java:109-115 | the two attributes are present exactly when the list has an attribute with each name |
| PolicyModel.RolesIn | src/main/java/xyz/deszaras/grounds/auth/Policy.java:108-110 | the roles set for a category, and the empty set for one never set |
| PolicyModel.Policy.constructor | src/main/java/xyz/deszaras/grounds/auth/Policy.java:78-80 | a new policy permits no role in any category |
| PolicyModel.Policy.FromMap | src/main/java/xyz/deszaras/grounds/auth/Policy.java:83-89 | a policy holding the given permissions |
| PolicyModel.Policy.GetRoles | src/main/java/xyz/deszaras/grounds/auth/Policy.java:108-110 | the roles of the category, empty when it is unset |
| PolicyModel.Policy.SetRoles | src/main/java/xyz/deszaras/grounds/auth/Policy.java:119-121 | the category now has exactly the given roles and every other category keeps its roles |
| PolicyModel.Policy.GetCategories | src/main/java/xyz/deszaras/grounds/auth/Policy.java:129-134 | exactly the categories whose roles include the role |
| PolicyModel.PassesMeaning | src/main/java/xyz/deszaras/grounds/auth/Policy.java:144-147 | passes exactly when some given role is permitted in the category |
| PolicyModel.CategoriesArePasses | src/main/java/xyz/deszaras/grounds/auth/Policy.java:129-147 | a category is among a role's categories exactly when that role alone passes it |
| PolicyModel.PassesMonotone | src/main/java/xyz/deszaras/grounds/auth/Policy.java:144-147 | holding more roles never makes a check fail |
| ChangePolicy.RoleLetters | src/main/java/xyz/deszaras/grounds/command/ChangePolicyCommand.java:57-81 | the letters are accepted exactly when each is g, d, o, B, A or T, and the roles are exactly those the letters name |
| ChangePolicy.ParseModMeaning | src/main/java/xyz/deszaras/grounds/command/ChangePolicyCommand.java:33-92 | a trimmed modification shorter than three characters, with an unknown category letter, an unknown role letter or an operator other than '+' or '-' is refused with that message, checked in that order; otherwise it gives the category, the operator and the roles |
| ChangePolicy.ParseAll | src/main/java/xyz/deszaras/grounds/command/ChangePolicyCommand.java:33-34 | each comma-separated piece parsed on its own, in order |
| ChangePolicy.ApplyAllStep | src/main/java/xyz/deszaras/grounds/command/ChangePolicyCommand.java:33-93 | one more piece either stops the loop with its error or records its roles under its category and operator |
| ChangePolicy.PrefixFailure | src/main/java/xyz/deszaras/grounds/command/ChangePolicyCommand.java:33-93 | once a piece fails, the later pieces do not matter |
| ChangePolicy.ApplyAllMeaning | src/main/java/xyz/deszaras/grounds/command/ChangePolicyCommand.java:33-93 | the pieces are accepted exactly when each parses, and otherwise the error is that of the first one that does not |
| ChangePolicy.LastModificationWins | src/main/java/xyz/deszaras/grounds/command/ChangePolicyCommand.java:83-92 | a category has roles to add (or remove) exactly when some piece names it with that operator, and they are the roles of the last such piece |
| ChangePolicy.FirstConflict | src/main/java/xyz/deszaras/grounds/command/ChangePolicyCommand.java:95-103 | no conflict exactly when no category both adds and removes a role; a conflict found is such a category |
| ChangePolicy.InstructionConsistent | src/main/java/xyz/deszaras/grounds/command/ChangePolicyCommand.java:95-103 | an accepted instruction never adds and removes the same role in one category |
| ChangePolicy.ParseRoles | src/main/java/xyz/deszaras/grounds/command/ChangePolicyCommand.java:57-81 | the role loop computes RoleLetters |
| ChangePolicy.ParseModification | src/main/java/xyz/deszaras/grounds/command/ChangePolicyCommand.java:34-92 | the body of the modification loop computes ParseMod |
| ChangePolicy.FindConflict | src/main/java/xyz/deszaras/grounds/command/ChangePolicyCommand.java:95-103 | the category loop finds the first conflicting category in declaration order |
| ChangePolicy.ApplyNext | src/main/java/xyz/deszaras/grounds/command/ChangePolicyCommand.java:33-93 | the loop invariant step: a failing piece is the result of the whole, a good one extends the instruction |
| ChangePolicy.ApplyModifications | src/main/java/xyz/deszaras/grounds/command/ChangePolicyCommand.java:33-93 | the modification loop computes ApplyAll of the parsed pieces |
| ChangePolicy.ParseInstruction | src/main/java/xyz/deszaras/grounds/command/ChangePolicyCommand.java:29-104 | the ChangeInstruction constructor computes Instructions: the pieces, then the conflict check with its message |
| ChangePolicy.Execute | src/main/java/xyz/deszaras/grounds/command/ChangePolicyCommand.java:124-132 | every category is set, each to its old roles with the added ones put in and the removed ones taken out |
| ChangePolicy.ChangedMeaning | src/main/java/xyz/deszaras/grounds/command/ChangePolicyCommand.java:126-131 | after an accepted instruction a role to add is present, a role to remove is absent, and any other role is present exactly when it was before |
| Commands.RunLengthMeaning | src/main/java/xyz/deszaras/grounds/command/CommandFactory.java:28-29 | the bare-word alternative `[^\s"']+` takes the longest run of characters that are not whitespace or quotes |
| Commands.FindMeaning | src/main/java/xyz/deszaras/grounds/command/CommandFactory.java:28-29 | the closing quote found is the first occurrence, and none is found exactly when there is none |
| Commands.FindAt | src/main/java/xyz/deszaras/grounds/command/CommandFactory.java:28-29 | the first occurrence of a character is what Find returns |
| Commands.ScanTokens | src/main/java/xyz/deszaras/grounds/command/CommandFactory.java:28-55 | every token is either a non-empty bare word free of whitespace and quotes, or quoted text free of its own quote character |
| Commands.TextsAppend | src/main/java/xyz/deszaras/grounds/command/CommandFactory.java:43-53 | the token texts of two runs of matches are the texts of each, in order |
| Commands.TextsMeaning | src/main/java/xyz/deszaras/grounds/command/CommandFactory.java:44-52 | one text per match, the group inside the quotes for a quoted match and the whole match otherwise |
| Commands.ScanSkip | src/main/java/xyz/deszaras/grounds/command/CommandFactory.java:43 | whitespace, and a quote with no closing partner, start no match |
| Commands.ScanQuoted | src/main/java/xyz/deszaras/grounds/command/CommandFactory.java:44-49 | a quote with a closing partner gives the text between them as one token, and the scan resumes after the closing quote |
| Commands.ScanBare | src/main/java/xyz/deszaras/grounds/command/CommandFactory.java:50-52 | a bare word is one token, and the scan resumes after it |
| Commands.MatchQuoted | src/main/java/xyz/deszaras/grounds/command/CommandFactory.java:43-49 | one step of the matcher at a quote: the quoted token and where the next search starts |
| Commands.NextMatch | src/main/java/xyz/deszaras/grounds/command/CommandFactory.java:43-53 | one step of the matcher from any position: the token found there, if any, and where the search resumes |
| Commands.Tokenize | src/main/java/xyz/deszaras/grounds/command/CommandFactory.java:40-55 | the tokens are exactly the texts of the left-to-right scan of the line |
| Commands.BlankScan | src/main/java/xyz/deszaras/grounds/command/CommandFactory.java:40-55 | a line of whitespace has no tokens |
| Commands.ScanWord | src/main/java/xyz/deszaras/grounds/command/CommandFactory.java:40-55 | a word written bare (or in double quotes when it cannot be bare) and followed by whitespace tokenizes to itself |
| Commands.TokenizeUnwords | src/main/java/xyz/deszaras/grounds/command/CommandFactory.java:40-55 | words without double quotes, each quoted when needed and joined with spaces, tokenize back to the same words, in order |
| Commands.GetCommandAsWritten | src/main/java/xyz/deszaras/grounds/command/CommandFactory.java:93-105 | a blank line is exactly the no-op case |
| Commands.LoneQuoteThrows | src/main/java/xyz/deszaras/grounds/command/CommandFactory.java:95-99 | the line holding one double quote is not blank yet has no token, so `tokens.get(0)` throws |
| Commands.GetCommand | src/main/java/xyz/deszaras/grounds/command/CommandFactory.java:93-105 | a no-op exactly for a blank line or one without tokens; an unknown upper-cased first token is "Unrecognized command NAME"; otherwise the command class of that name with the remaining tokens as arguments; upper-casing covers ASCII letters only |
| Commands.GetCommandNeverIndexes | src/main/java/xyz/deszaras/grounds/command/CommandFactory.java:95-105 | the corrected lookup fails only for an unknown command, and the lone quote is a no-op |
| Commands.PoseAlias | src/main/java/xyz/deszaras/grounds/command/CommandExecutor.java:96-106 | ":x rest" becomes POSE, the player's name, x, rest; any other line is unchanged |
| Commands.SayAlias | src/main/java/xyz/deszaras/grounds/command/CommandExecutor.java:109-118 | ">x rest" becomes SAY x rest; any other line is unchanged |
| Commands.OocAlias | src/main/java/xyz/deszaras/grounds/command/CommandExecutor.java:120-129 | a first word equal to OOC ignoring case becomes SAY _ooc_; any other line is unchanged |
| Commands.PercentAlias | src/main/java/xyz/deszaras/grounds/command/CommandExecutor.java:131-142 | "%x rest" becomes SAY _ooc_ x rest; any other line is unchanged |
| Commands.RewriteFiresOnce | src/main/java/xyz/deszaras/grounds/command/CommandExecutor.java:93-143 | applying the four rewrites in list order, the one matching the first word decides the result, and a line none matches is unchanged |
| GrappleStats.Bound | src/main/java/xyz/deszaras/grounds/combat/grapple/BaseStats.java:182-190 | the value clamped into [min, max]: unchanged inside, min below, max above |
| GrappleStats.UseCompletes | src/main/java/xyz/deszaras/grounds/combat/grapple/BaseStats.java:69-85 | after using a skill, all are used exactly when every other skill already was, and using one never undoes "all used" |
| GrappleStats.BaseStats.constructor | src/main/java/xyz/deszaras/grounds/combat/grapple/BaseStats.java:23-33 | the skills and limits as given, every skill unused, and the counters at zero |
| GrappleStats.BaseStats.Init | src/main/java/xyz/deszaras/grounds/combat/grapple/BaseStats.java:39-48 | ad above apMaxSize, then ad below zero, are refused with their messages before anything is set; otherwise ad and sd are set, and wounds is set unless it exceeds maxWounds, which is refused; succeeds exactly when 0 <= ad <= apMaxSize and wounds <= maxWounds |
| GrappleStats.BaseStats.GetRating | src/main/java/xyz/deszaras/grounds/combat/grapple/BaseStats.java:56-61 | the skill's rating, or "Skill NAME not present" exactly when it has none |
| GrappleStats.BaseStats.UseSkill | src/main/java/xyz/deszaras/grounds/combat/grapple/BaseStats.java:69-71 | the skill is marked used and nothing else changes |
| GrappleStats.BaseStats.IsUsed | src/main/java/xyz/deszaras/grounds/combat/grapple/BaseStats.java:78-80 | the skill's use flag, when it has one |
| GrappleStats.BaseStats.ResetSkillUses | src/main/java/xyz/deszaras/grounds/combat/grapple/BaseStats.java:88-92 | the same skills, all unused, so "all used" holds only with no skills; the counters are unchanged |
| GrappleStats.BaseStats.AddAd | src/main/java/xyz/deszaras/grounds/combat/grapple/BaseStats.java:105-109 | AD becomes old AD plus the amount, added as Java ints (wrapping around), clamped to [0, apMaxSize], and is returned; nothing else changes |
| GrappleStats.BaseStats.SetAd | src/main/java/xyz/deszaras/grounds/combat/grapple/BaseStats.java:112-115 | AD becomes the amount clamped to [0, apMaxSize], and is returned |
| GrappleStats.BaseStats.AddSd | src/main/java/xyz/deszaras/grounds/combat/grapple/BaseStats.java:123-126 | SD grows by the amount as Java ints add (wrapping around), without any clamp, and is returned |
| GrappleStats.BaseStats.SetSd | src/main/java/xyz/deszaras/grounds/combat/grapple/BaseStats.java:129-132 | SD becomes the amount without any clamp, and is returned |
| GrappleStats.BaseStats.Wound | src/main/java/xyz/deszaras/grounds/combat/grapple/BaseStats.java:155-159 | wounds become old wounds plus the amount, added as Java ints (wrapping around), clamped to [0, maxWounds], and are returned |
| GrappleStats.WoundOutcome | src/main/java/xyz/deszaras/grounds/combat/grapple/BaseStats.java:155-164 | after a wound the fighter is out exactly when the wrapped, unclamped wounds reach maxWounds |
| GrappleStats.OverflowClampsToZero | src/main/java/xyz/deszaras/grounds/combat/grapple/BaseStats.java:105-109 | an addition to AD (or to the wounds) that runs past Integer.MAX_VALUE wraps negative and so clamps to 0 |
| GrappleStats.ValidateSkills | src/main/java/xyz/deszaras/grounds/combat/grapple/BaseStats.java:256-271 | valid exactly when skills are set and, unless for an NPC, there are three of them rated 2, 3 and 4; no skills is "No skills are set" and a count other than three "Exactly 3 skills are required" |
| GrappleStats.ThreeRatedSkills | src/main/java/xyz/deszaras/grounds/combat/grapple/BaseStats.java:260-269 | a valid non-NPC skill map is exactly three skills rated 2, 3 and 4 |
| GrappleStats.Builder.constructor | src/main/java/xyz/deszaras/grounds/combat/grapple/BaseStats.java:196-201 | no skills, not an NPC, and every limit at its minimum |
| GrappleStats.Builder.Skill | src/main/java/xyz/deszaras/grounds/combat/grapple/BaseStats.java:203-211 | a rating outside 2..4 is refused with "rating must be between 2 and 4"; otherwise the skill is put into the (possibly new) map |
| GrappleStats.Builder.ApMaxSize | src/main/java/xyz/deszaras/grounds/combat/grapple/BaseStats.java:213-222 | accepted exactly within the limits, otherwise the "at least" or "no more than" message, checked in that order; only an accepted value is stored |
| GrappleStats.Builder.Defense | src/main/java/xyz/deszaras/grounds/combat/grapple/BaseStats.java:224-233 | the same for defense |
| GrappleStats.Builder.MaxWounds | src/main/java/xyz/deszaras/grounds/combat/grapple/BaseStats.java:235-244 | the same for maxWounds |
| GrappleStats.Builder.Npc | src/main/java/xyz/deszaras/grounds/combat/grapple/BaseStats.java:246-249 | marks the stats as an NPC's and changes nothing else |
| GrappleStats.Builder.Build | src/main/java/xyz/deszaras/grounds/combat/grapple/BaseStats.java:251-254 | fails exactly when the skills do not validate, with that error; otherwise new stats with the builder's skills and limits, zero counters and every skill unused |
| GrappleTeamModel.GrappleTeam.constructor | src/main/java/xyz/deszaras/grounds/combat/grapple/GrappleTeam.java:24-27 | a team with the name and members given |
| GrappleTeamModel.GrappleTeam.GetMemberStats | src/main/java/xyz/deszaras/grounds/combat/grapple/GrappleTeam.java:53-60 | the member's stats, or "Player NAME is not a member of team TEAM" exactly for a non-member |
| GrappleTeamModel.GrappleTeam.SetMemberStats | src/main/java/xyz/deszaras/grounds/combat/grapple/GrappleTeam.java:69-76 | a non-member is refused and nothing changes; otherwise only that member's stats are replaced, and the team is out exactly when the new stats and every other member are out |
| GrappleTeamModel.TeamBuilder.constructor | src/main/java/xyz/deszaras/grounds/combat/grapple/GrappleTeam.java:103-106 | a builder with the name and no members |
| GrappleTeamModel.TeamBuilder.Member | src/main/java/xyz/deszaras/grounds/combat/grapple/GrappleTeam.java:131-138 | a player already on the team is refused with "NAME is already a member of team TEAM"; otherwise the player is added with the stats |
| GrappleTeamModel.TeamBuilder.RemoveMember | src/main/java/xyz/deszaras/grounds/combat/grapple/GrappleTeam.java:147-152 | the player is no longer a member, and removing a non-member changes nothing |
| GrappleTeamModel.TeamBuilder.Build | src/main/java/xyz/deszaras/grounds/combat/grapple/GrappleTeam.java:185-189 | fails exactly without members, with "At least one team member is required"; otherwise a new team with the name and members |
| GrappleTeamModel.MemberThenRemove | src/main/java/xyz/deszaras/grounds/combat/grapple/GrappleTeam.java:131-152 | adding a new member and removing it restores the members |
| GrappleEngineModel.StandingMeaning | src/main/java/xyz/deszaras/grounds/combat/grapple/GrappleTeam.java:83-85 | a team is standing exactly when it is one of the teams and not every member of it is out |
| GrappleEngineModel.GrappleEngine.constructor | src/main/java/xyz/deszaras/grounds/combat/grapple/GrappleEngine.java:97-110 | the engine holds the teams, round, moving team index, yet-to-move set, over flag and winner it was built with |
| GrappleEngineModel.GrappleEngine.Start | src/main/java/xyz/deszaras/grounds/combat/grapple/GrappleEngine.java:112-122 | refused with "Combat has already started" (and no change) exactly when the round is not ROUND_NOT_STARTED; otherwise round 1, the first team moving with all its members yet to move, not over and no winner |
| GrappleEngineModel.GrappleEngine.CheckIfOver | src/main/java/xyz/deszaras/grounds/combat/grapple/GrappleEngine.java:395-410 | with two or more standing teams nothing changes; otherwise combat is over, the winner is the one standing team, or none when no team stands |
| GrappleEngineModel.GrappleEngine.MoveRefusal | src/main/java/xyz/deszaras/grounds/combat/grapple/GrappleEngine.java:248-264 | a move is allowed exactly when combat is not over, the player is yet to move and is not out; otherwise the first failing check's message: over, not on the moving team, already moved, knocked out |
| GrappleEngineModel.GrappleEngine.Move | src/main/java/xyz/deszaras/grounds/combat/grapple/GrappleEngine.java:246-388 | a refused move changes nothing and reports the refusal; an accepted one removes the player from those yet to move, ends combat with the surviving team's name when at most one team stands, and otherwise passes the turn exactly when every other player yet to move on the moving team is knocked out: then the next team moves with all its members yet to move, reporting a new round exactly when the index wraps to 0; else the turn and round stay |
| GrappleEngineModel.GrappleEngine.Advance | src/main/java/xyz/deszaras/grounds/combat/grapple/GrappleEngine.java:372-382 | the turn counter goes up by one, the index wraps to 0 exactly when a new round starts, and the new moving team's members are all yet to move |
| GrappleEngineModel.FindSurvivor | src/main/java/xyz/deszaras/grounds/combat/grapple/GrappleEngine.java:396-406 | the loop finds several standing teams exactly when at least two stand, none exactly when none stands, and otherwise the first standing team |
| GrappleEngineModel.StandingAppend | src/main/java/xyz/deszaras/grounds/combat/grapple/GrappleEngine.java:397-406 | the standing teams of a concatenation are those of each part, in order (the partner of the survivor loop) |
| GrappleEngineModel.StandingStep | src/main/java/xyz/deszaras/grounds/combat/grapple/GrappleEngine.java:397-406 | extending the scanned prefix by one team adds it to the standing teams exactly when it is not out |
| GrappleEngineModel.StandingPrefix | src/main/java/xyz/deszaras/grounds/combat/grapple/GrappleEngine.java:397-406 | a prefix never has more standing teams than the whole list |
| GrappleEngineModel.EngineBuilder.constructor | src/main/java/xyz/deszaras/grounds/combat/grapple/GrappleEngine.java:425-433 | no teams, round ROUND_NOT_STARTED, index 0, nobody yet to move, not over, no winner |
| GrappleEngineModel.EngineBuilder.AddTeam | src/main/java/xyz/deszaras/grounds/combat/grapple/GrappleEngine.java:435-442 | the team is appended and nothing else changes |
| GrappleEngineModel.EngineBuilder.Round | src/main/java/xyz/deszaras/grounds/combat/grapple/GrappleEngine.java:454-458 | a round that is not positive is refused with "round must be positive" and changes nothing; otherwise only the round is set |
| GrappleEngineModel.EngineBuilder.MovingTeamIndex | src/main/java/xyz/deszaras/grounds/combat/grapple/GrappleEngine.java:460-464 | a negative index is refused with "movingTeamIndex must be non-negative" and changes nothing; otherwise only the index is set |
| GrappleEngineModel.EngineBuilder.AddYetToMove | src/main/java/xyz/deszaras/grounds/combat/grapple/GrappleEngine.java:466-469 | the player joins the yet-to-move set and nothing else changes |
| GrappleEngineModel.EngineBuilder.Over | src/main/java/xyz/deszaras/grounds/combat/grapple/GrappleEngine.java:478-481 | only the over flag is set |
| GrappleEngineModel.EngineBuilder.WinningTeam | src/main/java/xyz/deszaras/grounds/combat/grapple/GrappleEngine.java:483-486 | only the winning team is set |
| GrappleEngineModel.EngineBuilder.Build | src/main/java/xyz/deszaras/grounds/combat/grapple/GrappleEngine.java:488-509 | fails exactly when BuildError reports a violated check, with that error; otherwise a fresh, valid engine holding exactly the builder's state |
| GrappleEngineModel.BuildError | src/main/java/xyz/deszaras/grounds/combat/grapple/GrappleEngine.java:490-506 | fewer than two teams and an index past the last team give their messages; no error means two or more teams, a valid index, yet-to-move players all on the moving team, someone yet to move unless not started or over, and a winner only when over and named like a listed team |
| GrappleEngineModel.DrainedAdBounds | src/main/java/xyz/deszaras/grounds/combat/grapple/GrappleEngine.java:589-594 | the final action dice never exceed apMaxSize; without negative strike dice or overflow they equal min(ad + half the strike dice rounded up, apMaxSize) and do not fall below ad when ad was within the limit |
| GrappleEngineModel.DrainedAdAtMaxSd | src/main/java/xyz/deszaras/grounds/combat/grapple/GrappleEngine.java:590 | at Integer.MAX_VALUE strike dice, `sd + 1` wraps, so a player with no AD drains to -2^30 |
| GrappleEngineModel.DrainStats | src/main/java/xyz/deszaras/grounds/combat/grapple/GrappleEngine.java:580-597 | a player missing grapple_apMaxSize is refused with "Player X is missing attribute grapple_apMaxSize" and unchanged; otherwise grapple_ad becomes the drained value, computed in Java int arithmetic, and grapple_sd becomes 0, other attributes unchanged |
| GrappleNpcModel.SplitLimit | src/main/java/xyz/deszaras/grounds/combat/grapple/GrappleNpc.java:33-34 | splitting on ':' with a limit of eight gives one to eight pieces, the plain split when it has no more than eight, otherwise the first seven pieces of the plain split and the rest of the text as the eighth; no piece but the last contains ':' |
| GrappleNpcModel.SplitLimitJoin | src/main/java/xyz/deszaras/grounds/combat/grapple/GrappleNpc.java:33-34 | the limited split loses nothing: joining its pieces with ':' gives back the input |
| GrappleNpcModel.TrimAll | src/main/java/xyz/deszaras/grounds/combat/grapple/GrappleNpc.java:33-34 | every piece is trimmed of Guava whitespace, one result per piece |
| GrappleNpcModel.GuavaTrimIdempotent | src/main/java/xyz/deszaras/grounds/combat/grapple/GrappleNpc.java:33-34 | trimming twice is trimming once |
| GrappleNpcModel.ParseParts | src/main/java/xyz/deszaras/grounds/combat/grapple/GrappleNpc.java:42-63 | eight parts fail exactly when all three skill parts are empty or an integer part is not a 32-bit integer; on success the skills are the first three parts and the five integers are the parsed parts 3 to 7 |
| GrappleNpcModel.SpecParts | src/main/java/xyz/deszaras/grounds/combat/grapple/GrappleNpc.java:37 | one to eight trimmed parts, exactly eight when the plain split has at least eight pieces |
| GrappleNpcModel.ParseStatsSpec | src/main/java/xyz/deszaras/grounds/combat/grapple/GrappleNpc.java:36-64 | "statsSpec must have eight parts" exactly when the spec has fewer than eight ':'-separated pieces; a parsed spec's integers all fit in 32 bits |
| GrappleNpcModel.ParseFormat | src/main/java/xyz/deszaras/grounds/combat/grapple/GrappleNpc.java:100-125 | formatting a canonical stats spec with "%s:%s:%s:%d:%d:%d:%d:%d" and parsing it gives the spec back |
| GrappleNpcModel.ParsedIsCanonical | src/main/java/xyz/deszaras/grounds/combat/grapple/GrappleNpc.java:36-64 | whatever parses is canonical (trimmed skill names without ':', at least one skill, 32-bit integers) |
| GrappleNpcModel.PrintParsed | src/main/java/xyz/deszaras/grounds/combat/grapple/GrappleNpc.java:36-64 | printing a parsed spec and parsing it again gives the same result |
| GrappleNpcModel.PopulateCombatAttributes | src/main/java/xyz/deszaras/grounds/combat/grapple/GrappleNpc.java:36-64 | fails exactly when the spec does not parse, with the parse error; otherwise the NPC's attributes are the old ones with each named skill in its grapple_skillN slot and the five integer attributes set |
| GrappleNpcModel.PopulateIntAttrs | src/main/java/xyz/deszaras/grounds/combat/grapple/GrappleNpc.java:59-63 | fails exactly when an integer part does not parse, with NumberFormatException's message; otherwise the five integer attributes are set from the parts |
| GrappleNpcModel.SetIntAttrs | src/main/java/xyz/deszaras/grounds/combat/grapple/GrappleNpc.java:93-97 | the five integer attributes are set to the given values and nothing else changes |
| GrappleNpcModel.IntSlots | src/main/java/xyz/deszaras/grounds/combat/grapple/GrappleNpc.java:93-97 | after setting the integer attributes each slot holds its value and every other name reads as before |
| GrappleNpcModel.CopySkills | src/main/java/xyz/deszaras/grounds/combat/grapple/GrappleNpc.java:71-88 | a skill was found exactly when some skill has rating 2, 3 or 4; each rated slot then holds a skill of that rating (the last one met), slots with no such skill are as before, and no other attribute changes |
| GrappleNpcModel.CopyStep | src/main/java/xyz/deszaras/grounds/combat/grapple/GrappleNpc.java:72-88 | one loop step keeps every slot's copy invariant with the new skill added to the done set |
| GrappleNpcModel.PopulateFromStats | src/main/java/xyz/deszaras/grounds/combat/grapple/GrappleNpc.java:66-98 | "stats must have at least one skill" (and no change) exactly when no skill is rated 2 to 4; otherwise the skill slots are filled and the five integer attributes hold the stats' values, all other attributes unchanged |
| GrappleNpcModel.SkillPart | src/main/java/xyz/deszaras/grounds/combat/grapple/GrappleNpc.java:110-118 | a skill slot's value, or "" when the slot is missing |
| GrappleNpcModel.IntPart | src/main/java/xyz/deszaras/grounds/combat/grapple/GrappleNpc.java:120-124 | a missing integer slot fails with "No value present"; otherwise the slot's integer value or its conversion error |
| GrappleNpcModel.GenerateStatsSpec | src/main/java/xyz/deszaras/grounds/combat/grapple/GrappleNpc.java:109-125 | succeeds exactly when all five integer slots are present and hold integers; a missing grapple_apMaxSize gives "No value present" |
| GrappleNpcModel.GenerateAfterPopulate | src/main/java/xyz/deszaras/grounds/combat/grapple/GrappleNpc.java:36-125 | after populating from a parsed spec (with no stale skill slot for an empty skill), generating the spec gives that spec's printed form |
| GrappleNpcModel.CombatAttrKeys | src/main/java/xyz/deszaras/grounds/combat/grapple/GrappleNpc.java:42-63 | populating adds exactly the five integer names and the non-empty skills' slot names to the attribute names |
| GrappleNpcModel.CombatOthersKept | src/main/java/xyz/deszaras/grounds/combat/grapple/GrappleNpc.java:42-63 | populating leaves every attribute outside the combat names as it was |
| GrappleNpcModel.NamesDistinct | src/main/java/xyz/deszaras/grounds/combat/grapple/GrappleEngine.java:535-542 | the eight combat attribute names are pairwise distinct, so setting one never overwrites another |
| GrappleNpcModel.SpecRoundTrip | src/main/java/xyz/deszaras/grounds/combat/grapple/GrappleNpc.java:100-128 | a Grapple NPC populated from a spec that parses produces a spec that parses to the same value, as the protobuf round trip (toProto then fromProto) needs |
| CombatRules.CountSuccs | src/main/java/xyz/deszaras/grounds/combat/Rules.java:141-153 | the number of successful dice never exceeds the number rolled |
| CombatRules.CountSuccsAppend | src/main/java/xyz/deszaras/grounds/combat/Rules.java:141-153 | successes of two runs of dice add up |
| CombatRules.CountSuccsExtremes | src/main/java/xyz/deszaras/grounds/combat/Rules.java:141-153 | no successes exactly when no die shows 3 or more; every die succeeding gives as many successes as dice |
| CombatRules.Succs | src/main/java/xyz/deszaras/grounds/combat/Rules.java:141-149 | the loop's count equals the number of dice showing 3 or more |
| CombatRules.Maneuver | src/main/java/xyz/deszaras/grounds/combat/Rules.java:24-46 | "Not enough action dice", then "ad must be between 1 and 3", refuse with no change; a missing skill fails after the action dice are spent; with no success the action dice are given back and nothing is earned; otherwise the action dice stay spent and min(successes, 5) strike dice are earned (added as Java ints); wounds and skill uses never change |
| CombatRules.Strike | src/main/java/xyz/deszaras/grounds/combat/Rules.java:64-83 | "Not enough strike dice", then "sd must be between 1 and 6", refuse with no change; a defender with defense 0 fails with "/ by zero" after the dice are spent; otherwise wounds are successes divided by defense (truncating), the strike succeeds exactly when that is positive, wounding the defender (Java int addition) within [0, maxWounds] and keeping the dice spent, and otherwise refunds the dice and leaves the defender unwounded; the defender's AD never change and, for distinct fighters, neither do the defender's SD nor the attacker's wounds |
| CombatRules.StrikeWoundsWhen | src/main/java/xyz/deszaras/grounds/combat/Rules.java:74-75 | against a positive defense a strike wounds exactly when the successes reach the defense |
| CombatRules.SkillAction | src/main/java/xyz/deszaras/grounds/combat/Rules.java:98-114 | "Not enough strike dice", then "sd must be between 0 and 6", refuse with no change; a missing skill fails after the dice are spent; otherwise the action succeeds exactly when the successes reach the skill's difficulty, keeping the dice spent, and otherwise refunds them |
| CombatRules.CatchBreath | src/main/java/xyz/deszaras/grounds/combat/Rules.java:125-129 | two action dice are earned and added as Java ints, clamped to [0, apMaxSize] (so min(ad + 2, apMaxSize) unless the sum overflows); strike dice, wounds and skill uses are unchanged |
| MailboxModel.RankInListing | src/main/java/xyz/deszaras/grounds/mail/Mailbox.java:97-105 | in a newest-first listing of distinct missives, the k-th one has at most k strictly newer missives and at least k+1 that are not older, so numbering by position is numbering by age |
| MailboxModel.ListNewest | src/main/java/xyz/deszaras/grounds/mail/Mailbox.java:97-105 | appending the newest of the missives not yet listed keeps the partial listing newest-first, duplicate-free and covering exactly what has been taken (the selection step behind the sort) |
| MailboxModel.HasNewest | src/main/java/xyz/deszaras/grounds/mail/Mailbox.java:97-105 | every non-empty set of missives has a newest one |
| MailboxModel.DistinctCard | src/main/java/xyz/deszaras/grounds/mail/Mailbox.java:97-105 | a duplicate-free listing has as many entries as it has distinct missives |
| MailboxModel.Mailbox.constructor | src/main/java/xyz/deszaras/grounds/mail/Mailbox.java:27-29 | the mailbox wraps the given thing |
| MailboxModel.Mailbox.Size | src/main/java/xyz/deszaras/grounds/mail/Mailbox.java:56-58 | the number of missives held |
| MailboxModel.Mailbox.Deliver | src/main/java/xyz/deszaras/grounds/mail/Mailbox.java:37-39 | the missive is now held; reports true exactly when it was not held before, and the size grows by one exactly then |
| MailboxModel.Mailbox.Delete | src/main/java/xyz/deszaras/grounds/mail/Mailbox.java:47-49 | the missive is no longer held; reports true exactly when it was held, and the size shrinks by one exactly then |
| MailboxModel.Mailbox.GetAllInReverseChronoOrder | src/main/java/xyz/deszaras/grounds/mail/Mailbox.java:97-105 | a newest-first, duplicate-free listing of exactly the missives held, as long as the mailbox's size |
| MailboxModel.Mailbox.Get | src/main/java/xyz/deszaras/grounds/mail/Mailbox.java:68-75 | "Number must be positive" exactly when num < 1; empty when num exceeds the size; otherwise a held missive ranked num-th by age (fewer than num newer, at least num not older) |
| MailboxModel.Mailbox.DeleteNumbered | src/main/java/xyz/deszaras/grounds/mail/Mailbox.java:85-90 | "Number must be positive", then "Number must be no more than SIZE", refuse with no change; otherwise exactly one held missive, the num-th by age, is removed |
| RecordOutputModel.MaxKeyLength | src/main/java/xyz/deszaras/grounds/util/RecordOutput.java:70-77 | none exactly when no field has a key; otherwise the length of some key, and no key is longer |
| RecordOutputModel.KeyColumn | src/main/java/xyz/deszaras/grounds/util/RecordOutput.java:78-79 | "%-w.ws" of a key no longer than w: exactly w characters, the key followed by spaces |
| RecordOutputModel.FieldLine | src/main/java/xyz/deszaras/grounds/util/RecordOutput.java:83-90 | a keyed line is the key padded to the column width, a space, the value and a newline, so every keyed value starts in the same column; an unkeyed line is the value and a newline |
| RecordOutputModel.LinesEndInNewline | src/main/java/xyz/deszaras/grounds/util/RecordOutput.java:81-92 | every field takes at least one character and the rendered lines end in a newline |
| RecordOutputModel.LinesSnoc | src/main/java/xyz/deszaras/grounds/util/RecordOutput.java:83-90 | the lines of one more field are the lines so far followed by that field's line |
| RecordOutputModel.EmptyUnlessKeyed | src/main/java/xyz/deszaras/grounds/util/RecordOutput.java:70-76 | a record renders as the empty string exactly when no field has a key |
| RecordOutputModel.RecordOutput.constructor | src/main/java/xyz/deszaras/grounds/util/RecordOutput.java:24-27 | a record with no fields |
| RecordOutputModel.RecordOutput.AddField | src/main/java/xyz/deszaras/grounds/util/RecordOutput.java:37-45 | one field is appended: the coloured key with its colon (or no key) and the value |
| RecordOutputModel.RecordOutput.AddValue | src/main/java/xyz/deszaras/grounds/util/RecordOutput.java:54-56 | one unkeyed field with the value is appended |
| RecordOutputModel.RecordOutput.AddBlankLine | src/main/java/xyz/deszaras/grounds/util/RecordOutput.java:64-66 | one unkeyed field with an empty value is appended |
| RecordOutputModel.RecordOutput.ToString | src/main/java/xyz/deszaras/grounds/util/RecordOutput.java:68-93 | the rendered record: nothing when no field has a key, otherwise every field's line in order with keys padded to the longest key |
| RecordOutputModel.RecordOutput.AllLines | src/main/java/xyz/deszaras/grounds/util/RecordOutput.java:81-92 | the loop builds exactly the fields' lines, in order |
| RecordOutputModel.RecordOutput.From | src/main/java/xyz/deszaras/grounds/util/RecordOutput.java:106-137 | a missing map gives an empty record; a map without "keys", then without "values", then with lists of different lengths, is refused with its message; these are the only failures; otherwise one field per list position, the empty key standing for no key |
| TabularOutputModel.Cells | src/main/java/xyz/deszaras/grounds/util/TabularOutput.java:120-125 | one formatted cell per column, each value formatted with its column's format string |
| TabularOutputModel.RowLines | src/main/java/xyz/deszaras/grounds/util/TabularOutput.java:116-130 | one line per row |
| TabularOutputModel.LineAvoidsNewline | src/main/java/xyz/deszaras/grounds/util/TabularOutput.java:119-126 | a line of cells contains no newline when no formatted cell does |
| TabularOutputModel.JoinAvoids | src/main/java/xyz/deszaras/grounds/util/TabularOutput.java:98-106 | joining pieces that avoid a character with a different separator avoids it too |
| TabularOutputModel.RenderLines | src/main/java/xyz/deszaras/grounds/util/TabularOutput.java:92-134 | split at newlines, the table is the cyan header line, the cyan dash line, then one line per row in order, or the red "<no data>" when there are no rows |
| TabularOutputModel.NoTrailingNewline | src/main/java/xyz/deszaras/grounds/util/TabularOutput.java:116-130 | a table with rows does not end in a newline when its last row's line is not empty |
| TabularOutputModel.TabularOutput.constructor | src/main/java/xyz/deszaras/grounds/util/TabularOutput.java:34-37 | no columns and no rows |
| TabularOutputModel.TabularOutput.DefineColumn | src/main/java/xyz/deszaras/grounds/util/TabularOutput.java:47-53 | refused with "Table already has rows in it" (and no change) exactly when rows exist; otherwise the column is appended |
| TabularOutputModel.TabularOutput.AddRow | src/main/java/xyz/deszaras/grounds/util/TabularOutput.java:63-88 | refused with "The table has C columns, but this row has V values" (and no change) exactly when the row's length differs from the number of columns; otherwise the row is appended |
| TabularOutputModel.TabularOutput.SpacedCells | src/main/java/xyz/deszaras/grounds/util/TabularOutput.java:98-125 | the loop builds the formatted cells separated by single spaces |
| TabularOutputModel.TabularOutput.JoinRows | src/main/java/xyz/deszaras/grounds/util/TabularOutput.java:116-130 | the loop builds the row lines separated by newlines, with none after the last |
| TabularOutputModel.TabularOutput.ToString | src/main/java/xyz/deszaras/grounds/util/TabularOutput.java:91-134 | the rendered table: header and dash lines with trailing whitespace stripped, then the rows or "<no data>" |
| AnsiStringModel.CsiLen | src/main/java/xyz/deszaras/grounds/util/AnsiString.java:132-138 | a CSI code's parameters run up to and including the first final character '@'..'~', within the text |
| AnsiStringModel.OscLen | src/main/java/xyz/deszaras/grounds/util/AnsiString.java:139-152 | an OSC code runs up to and including BEL or ESC '\\', within the text |
| AnsiStringModel.CodeLen | src/main/java/xyz/deszaras/grounds/util/AnsiString.java:124-162 | an escape code takes at least ESC and one more character and never runs past the text |
| AnsiStringModel.Strip | src/main/java/xyz/deszaras/grounds/util/AnsiString.java:51-70 | the visible text is never longer than the original |
| AnsiStringModel.CodesBefore | src/main/java/xyz/deszaras/grounds/util/AnsiString.java:119-167 | every escape code met before the end of the range starts with ESC and has at least two characters |
| AnsiStringModel.CodeAgree | src/main/java/xyz/deszaras/grounds/util/AnsiString.java:124-162 | the extent of an escape code depends only on its own characters, not on what follows it |
| AnsiStringModel.StripAppend | src/main/java/xyz/deszaras/grounds/util/AnsiString.java:51-70 | visible text and escape codes of a concatenation are those of the parts, when the first part ends on a code boundary |
| AnsiStringModel.PlainText | src/main/java/xyz/deszaras/grounds/util/AnsiString.java:51-70 | text without ESC is all visible and holds no codes |
| AnsiStringModel.ResetIsCsi | src/main/java/xyz/deszaras/grounds/util/AnsiString.java:101 | the reset ESC '[' 'm' is one CSI code and is invisible |
| AnsiStringModel.CodeIsInvisible | src/main/java/xyz/deszaras/grounds/util/AnsiString.java:51-162 | putting an escape code in front of a text adds a code and no visible character |
| AnsiStringModel.WalkFacts | src/main/java/xyz/deszaras/grounds/util/AnsiString.java:119-167 | the copying walk keeps exactly the visible characters from start to end and every code before end, and notes whether one of those codes is a CSI code |
| AnsiStringModel.AnsiString.Length | src/main/java/xyz/deszaras/grounds/util/AnsiString.java:96-99 | the number of visible characters, never more than the original's length |
| AnsiStringModel.AnsiString.CharAt | src/main/java/xyz/deszaras/grounds/util/AnsiString.java:72-75 | the index-th visible character exactly for 0 <= index < length; otherwise String.charAt's index error |
| AnsiStringModel.PlainAnsiString | src/main/java/xyz/deszaras/grounds/util/AnsiString.java:72-99 | for text without escape codes, length, characters and emptiness are those of the plain string |
| AnsiStringModel.SubSeqMeaning | src/main/java/xyz/deszaras/grounds/util/AnsiString.java:105-174 | a substring exists exactly when 0 <= start <= end <= length; its visible text is the visible text from start to end, its length end - start, and its codes are all codes before end, followed by a reset exactly when one of them is a CSI code |
| AnsiStringModel.SubSequence | src/main/java/xyz/deszaras/grounds/util/AnsiString.java:105-174 | the bounds checks in order ("start must be non-negative", "end must be non-negative", "end E must not exceed L", "start S must not exceed end E"), then the copying walk and the reset, as SubSeqMeaning describes |
| AnsiStringModel.CopyCodesAndRange | src/main/java/xyz/deszaras/grounds/util/AnsiString.java:119-167 | the copying loop produces the walk's characters and its CSI flag |
| AnsiStringModel.CopyNext | src/main/java/xyz/deszaras/grounds/util/AnsiString.java:124-166 | one loop iteration consumes a whole escape code or one visible character, keeping the walk's remaining output and CSI flag the same overall |
| AnsiStringModel.ScanCsi | src/main/java/xyz/deszaras/grounds/util/AnsiString.java:134-137 | the do-while loop stops just after the CSI code's final character |
| AnsiStringModel.ScanOsc | src/main/java/xyz/deszaras/grounds/util/AnsiString.java:140-151 | the do-while loop stops just after the OSC code's BEL or ESC '\\' |
| AnsiStringModel.ScanCode | src/main/java/xyz/deszaras/grounds/util/AnsiString.java:126-162 | the position just after the escape code that starts here |
| AnsiStringModel.FormatTo | src/main/java/xyz/deszaras/grounds/util/AnsiString.java:221-242 | formatTo as written: the text truncated to the precision, padded with spaces by width minus the untruncated length |
| AnsiStringModel.PadSpaces | src/main/java/xyz/deszaras/grounds/util/AnsiString.java:233-242 | the loop adds exactly the count of spaces, after the text when left-justified and before it otherwise |
| AnsiStringModel.TruncatedMeaning | src/main/java/xyz/deszaras/grounds/util/AnsiString.java:225-230 | precision -1 keeps everything, a precision below -1 fails, otherwise the visible text is cut to the precision |
| AnsiStringModel.PadVisible | src/main/java/xyz/deszaras/grounds/util/AnsiString.java:233-242 | padding adds visible spaces on the justified side and nothing else |
| AnsiStringModel.PadToWidth | src/main/java/xyz/deszaras/grounds/util/AnsiString.java:233-242 | padding by width minus the visible length gives at least width visible characters with the text at the justified side |
| AnsiStringModel.FormatWidth | src/main/java/xyz/deszaras/grounds/util/AnsiString.java:221-242 | the corrected formatting shows max(width, truncated length) visible characters, the truncated text at the justified side |
| AnsiStringModel.AsWrittenUntruncated | src/main/java/xyz/deszaras/grounds/util/AnsiString.java:225-242 | without truncation the as-written and corrected formatting agree |
| AnsiStringModel.PlainTruncated | src/main/java/xyz/deszaras/grounds/util/AnsiString.java:229 | truncating plain text keeps its first precision characters |
| AnsiStringModel.AsWrittenPadsShort | src/main/java/xyz/deszaras/grounds/util/AnsiString.java:233-242 | "%5.2s" of "abcdef" yields "ab", two characters instead of five, because the padding is counted from the length before truncation; the corrected version yields "   ab" |
| Markup.IndexOf | src/main/java/xyz/deszaras/grounds/util/Markup.java:30-32 | -1 exactly when no '%' follows from; otherwise the position of the first '%' at or after from |
| Markup.Effect | src/main/java/xyz/deszaras/grounds/util/Markup.java:53-197 | "re" gives a reset, a known command gives that command, anything else gives nothing |
| Markup.Command | src/main/java/xyz/deszaras/grounds/util/Markup.java:46-51 | always two characters: the two after the '%', or "xx" when fewer than two follow |
| Markup.Step | src/main/java/xyz/deszaras/grounds/util/Markup.java:33-198 | one marker moves the scan two ("%%") or three characters past it |
| Markup.Pass | src/main/java/xyz/deszaras/grounds/util/Markup.java:33-198 | one loop iteration emits what the rendering defines for the text before the marker and the marker itself, and returns the next position and whether a reset is owed |
| Markup.Close | src/main/java/xyz/deszaras/grounds/util/Markup.java:200-209 | after the last marker, the rest of the text followed by a reset when one is owed |
| Markup.WalkStep | src/main/java/xyz/deszaras/grounds/util/Markup.java:30-199 | the rendering from a marker on is that marker's output followed by the rendering after it |
| Markup.RenderTurn | src/main/java/xyz/deszaras/grounds/util/Markup.java:30-199 | each loop iteration keeps "output so far + rendering of the rest = rendering of the whole text" |
| Markup.RenderEnd | src/main/java/xyz/deszaras/grounds/util/Markup.java:200-209 | when no marker remains, text without any marker comes back unchanged, and otherwise the closing output completes the rendering |
| Markup.Render | src/main/java/xyz/deszaras/grounds/util/Markup.java:25-210 | the loop's output equals the rendering defined for the text |
| Markup.NoMarkupUnchanged | src/main/java/xyz/deszaras/grounds/util/Markup.java:200-202 | text without '%' renders as itself |
| Markup.WrittenRenderKeepsControls | src/main/java/xyz/deszaras/grounds/util/Markup.java:25-210 | the code as written emits exactly the reference reading's styles and resets, in order, whatever text it drops |
| Markup.CorrectedRenderMatchesReference | src/main/java/xyz/deszaras/grounds/util/Markup.java:25-210 | with every text run kept, the rendering is, character by character, the reference reading: each ordinary character, '%' for "%%", each command's effect, markers cut off at the end dropped, and a final reset exactly when a marker was seen and the last one was not "%re" |
| Markup.WalkMatchesBody | src/main/java/xyz/deszaras/grounds/util/Markup.java:30-209 | the corrected walk from any position matches the reference reading from there |
| Markup.StepMatchesBody | src/main/java/xyz/deszaras/grounds/util/Markup.java:33-198 | one corrected step matches the reference reading of the text before the marker and the marker |
| Markup.FinishMatchesBody | src/main/java/xyz/deszaras/grounds/util/Markup.java:203-208 | the corrected closing output matches the reference reading of the rest |
| Markup.MarkerBody | src/main/java/xyz/deszaras/grounds/util/Markup.java:37-198 | a marker's output is what the reference reads for it |
| Markup.MarkerReset | src/main/java/xyz/deszaras/grounds/util/Markup.java:44-191 | a reset is owed after a marker exactly when the reference owes one: any marker but "%re" sets it, "%re" clears it, "%%" leaves it |
| Markup.AsWrittenDropsOneCharRun | src/main/java/xyz/deszaras/grounds/util/Markup.java:33-35 | "a%Bo" renders as written without the "a": a one-character run before a marker is dropped, while the reference keeps it |

## Left out

- Network and I/O are left out. This covers the JSON-RPC transport, stdin/stdout framing, log output, and loading and saving files. The remote store is the `Remote` object's maps.
- Concurrency is left out: Java `synchronized`, and the race between concurrent read-modify-write cycles on a list attribute. Each call runs alone.
- Go `json.Unmarshal` is modelled for the shapes the plugins use. Its leniencies (field-name case folding, unknown fields, number coercions) are not modelled.
- The helpers the Go plugins call but whose source is not in the repository are modelled from how they are used. This covers `newJsonRpcErrorResponse`, `jsonrpc2.NewResponse` and the call-ID context.
- Events: date parsing (`dateparse`) and the caller's time zone (`GetCallerTZ`) become the `start` parameter. Timestamps are decimal epoch seconds.
- Events: handleGetEvent, and the table and record formatting of event listings (`SendTableToCaller`, `SendRecordToCaller`), are left out.
- Events.EventNames skips an empty attribute name; the source would index its first byte and panic. The server reports no empty names.
- Chat.ListChannelNames skips an empty attribute name; the source indexes its first byte (plugins/chat/main.go:259) and would panic. The server reports no empty names.
- Chat: handleLeave, handleSay and the text of channel details are left out. So is sending messages to channel members; only the message to the caller is logged.
- GoApi.ListOfMap and GoApi.Remote.GetAttrNames state contents and multiplicity, not order. Go map iteration order is unspecified.
- Chat.ListChannelNames states which names are listed, not their order. The order comes from the server.
- ThingModel.Thing: only the `setAttr(Attr)` form is modelled. The typed `setAttr` overloads and `incr`/`decr` are left out.
- Attribute flushing and universe lookups are left out. Universe lookups come in as parameters, such as the mailbox's timestamp function.
- Attributes are serialized with one canonical encoding. Jackson's YAML/JSON mapping and the '@file' load are not modelled; the loaded text is a parameter.
- Limits, Role, Skill, Skills and Universe are not part of this model:
  - limits are parameters;
  - roles are an enumeration of the letters ChangePolicyCommand accepts, plus GOD;
  - a skill's action difficulty is a parameter.
- ChangePolicy.Execute leaves out the caller's role check (thaumaturge or above), which ChangePolicyCommand does before changing anything.
- ChangePolicy.Execute does not model the policy's printed form. Java's HashSet print order is unspecified.
- ActorDatabase: getAllActorRecords, load/save and the security-manager permission checks are left out.
- GrappleTeam: getMemberByName, the status text and the protocol-buffer form are left out.
- GrappleEngine: the status table and the textual move result are left out, and so is the parsing of move commands into rule calls.
- GrappleEngineModel.GrappleEngine.Move takes the rules' effect on the stats as already applied. It checks the move and does the turn bookkeeping; the dice rules are modelled separately in CombatRules.
- AnsiStringModel.Strip follows the escape grammar that subSequence scans. It does not follow the Jansi AnsiOutputStream the source uses to strip, which is not part of this model.
- AnsiStringModel.FormatTo returns the text it would hand on. The formatter then reads that text as a format string again, so a '%' in the content is interpreted; that step is not modelled.
- Markup.Render produces pieces (text, command, reset), not Jansi escape sequences.
- ANSI colouring (`AnsiUtils.color`) is a parameter of TabularOutput and RecordOutput.
- `String.format` with a column's format string is a parameter of TabularOutput.
- Commands: the full command classes are left out. The model covers the tokenizer, the command table lookup and the four alias rewrites.
- Commands.GetCommand upper-cases ASCII letters only. Java's `toUpperCase()` also maps other letters (for example "ſay" becomes "SAY"), so a command name spelled with such letters is unrecognized in the model but found by the source.
- AttrModel.ParseJavaInt accepts ASCII digits only; `Integer.parseInt` also accepts other Unicode decimal digits (`Character.digit`).
- RecordOutputModel, TabularOutputModel and AnsiStringModel count widths in characters, not in UTF-16 code units as Java's `String.length()` does; they differ only for characters outside the Basic Multilingual Plane.
- GoApi.Handle has no case for a handler that returns neither a result nor an error; the source would call `Error()` on a nil error there.
- Events.Event.FillFromAttr quotes the bad start time in its error with plain double quotes; `strconv.Quote` would also escape special characters in it.

## Findings

| source | as written | input that shows it | evidently intended | confidence | as-written member | corrected member |
|---|---|---|---|---|---|---|
| src/main/java/xyz/deszaras/grounds/util/Markup.java:33-35 | text before a marker is copied only when it is longer than one character (`fcidx - fromIndex > 1`), so a one-character run is dropped | "a%Bo" renders as bold and a reset, without the "a" | every character of text before a marker is kept | high; not executed | Markup.AsWrittenDropsOneCharRun | Markup.CorrectedRenderMatchesReference |
| plugins/chat/main.go:232 | the channel-name check indexes the first byte of the name, so an empty name panics (index out of range) instead of being refused | a channel command with an empty channel name | an empty name is refused as "not a valid channel name" | high; not executed | Chat.EmptyChannelNamePanics | Chat.ValidChannelName |
| src/main/java/xyz/deszaras/grounds/command/CommandFactory.java:95-99 | a line that is not blank but tokenizes to nothing reaches `tokens.get(0)` and throws IndexOutOfBoundsException | a line holding a single double quote `"` | a line without tokens does nothing, like a blank line | medium; not executed | Commands.LoneQuoteThrows | Commands.GetCommandNeverIndexes |
| src/main/java/xyz/deszaras/grounds/util/AnsiString.java:233-241 | padding is counted from the length before the precision truncates the text | "%5.2s" of "abcdef" gives "ab" (two characters) | "   ab": padding counted from the truncated length, as String.format does for plain strings | high; not executed | AnsiStringModel.AsWrittenPadsShort | AnsiStringModel.FormatWidth |
