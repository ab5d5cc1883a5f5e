# eddiejunior dispatch core in Dafny

A model of the event-dispatch and session core of the eddiejunior Discord bot.

- **Components (`Server`).** A tenant server keeps its feature components once each, keyed by name.
  It keeps a mapping from each registered command or interaction name to the id the platform assigned it.
  Enabling a component requests an upsert of each of its names; each confirmation records an id.
  Disabling marks the component disabled, removes its names from the mapping and requests deletion of each id it found.
  A case-insensitive lookup and a listing sorted by case-insensitive name complete the module.
- **Direct-message relay (`Direct`).** A private message is held under its author while the user picks a server.
  Then the user picks a service, which is a key of that server's direct-message handler.
  Choosing the service hands the message over, and a cancel button drops it.
- **`DirectComponent`.** This component relays to a destination channel while it runs.
  It refuses authors on its block-list.
  Its destination, running flag and block-list are persisted in a key/value settings store.
- **`Manager`.** The administrative text commands: enable, disable, permission, revoke, setprefix and help.
  Command predicates are modelled as an authorization datatype with an evaluator.
- **`CommandEvent`.** The typed command event, and its conversion into the event a subcommand sees.

State that the source changes in place is modelled as classes with `modifies` clauses:
- the server's maps;
- the relay's session table;
- the component's flags and store;
- the handler key sets;
- the manager's predicate table.

Each method's contract states its new state as functions of the old state, and says which objects in its frame stay as they were (`Unregister`, `PutAll`, `RegistrationUpserts`, `ComponentMenuStep`, `ChooseComponentStep`, the settings functions). The properties are lemmas about those functions.

Platform calls become inputs, and upsert/delete requests become logs:
- The guilds shared with a user are a sequence.
- The bot's servers, with their direct-handler keys, are a map.
- The guild's text channels are a set.
- The channels where the bot may embed links are a set.
- The bot's roles are a map from role id to role name.
- Upsert and delete requests are appended to `upserts` and `deletes`.
- Asynchronous upsert confirmations are the separate method `ConfirmUpsert`.

Behaviour of the code worth knowing:
- With one mutual server the code always shows the service menu, even when that server has a single service (`Direct.java:39-43`, `79-96`).
- An upsert confirmation is recorded whenever it arrives, also after the component has been disabled again (`Server.java:73-81`); `ConfirmUpsert` does the same.
- None of `Server.java`, `Manager.java` and `DirectComponent.java` refuses to toggle an always-enabled component; `Server.toggleComponent` toggles whatever it is given (`Server.java:64-103`).

## Model

| member | source | states |
|---|---|---|
| Common.Lower | src/main/java/com/thefatrat/application/sources/Server.java:106 | lower-casing keeps the length of the name |
| Common.CaseInsensitiveLeq | src/main/java/com/thefatrat/application/sources/Server.java:60 | the case-insensitive order compares the lower-cased names lexicographically (its properties are the two lemmas below) |
| Common.ParseBoolean | src/main/java/com/thefatrat/application/components/DirectComponent.java:45 | true exactly for "true" in any letter case; used by the constructor's restore rule |
| CommandEvent.ToSub | src/main/java/com/thefatrat/application/events/CommandEvent.java:26-28 | the sub-event's command is the subcommand, it has no subcommand, and args, guild and channel are shared |
| CommandEvent.ToSubForgetsOnlyCommand | src/main/java/com/thefatrat/application/events/CommandEvent.java:26-28 | two events have equal sub-events exactly when they agree on everything but the command name |
| CommandEvent.ToSubIgnoresCommand | src/main/java/com/thefatrat/application/events/CommandEvent.java:26-28 | renaming an event's command never changes its sub-event |
| CommandEvent.ToSubTwice | src/main/java/com/thefatrat/application/events/CommandEvent.java:26-28 | descending twice leaves neither command nor subcommand, and keeps the arguments |
| Common.LowerIdempotent | src/main/java/com/thefatrat/application/sources/Server.java:106 | lower-casing a lower-cased name changes nothing |
| Common.CaseInsensitiveTotal | src/main/java/com/thefatrat/application/sources/Server.java:60 | any two names are comparable under the case-insensitive order |
| Common.CaseInsensitiveTransitive | src/main/java/com/thefatrat/application/sources/Server.java:60 | the case-insensitive order is transitive |
| Server.MessageHandler.AddListener | src/main/java/com/thefatrat/application/components/DirectComponent.java:231 | the handler's key set gains exactly the key |
| Server.MessageHandler.RemoveListener | src/main/java/com/thefatrat/application/components/DirectComponent.java:222 | the handler's key set loses exactly the key |
| Server.Component.Enable | src/main/java/com/thefatrat/application/sources/Server.java:83 | the component becomes enabled |
| Server.Component.Disable | src/main/java/com/thefatrat/application/sources/Server.java:85 | the component becomes disabled |
| Server.Unregister | src/main/java/com/thefatrat/application/sources/Server.java:86-101 | the remaining mapping is the old one without every given name |
| Server.UnregisterDeletesExactly | src/main/java/com/thefatrat/application/sources/Server.java:86-100 | an id is deleted exactly when some given name was mapped to it |
| Server.UnregisterDeleteCount | src/main/java/com/thefatrat/application/sources/Server.java:86-100 | one delete request per given name that was present, none for absent names |
| Server.UnregisterConcat | src/main/java/com/thefatrat/application/sources/Server.java:86-101 | removing the commands and then the interactions equals removing both lists at once |
| Server.InsertByName | src/main/java/com/thefatrat/application/sources/Server.java:58-62 | insertion into the listing adds exactly the one component (multiset) |
| Server.InsertByNameMember | src/main/java/com/thefatrat/application/sources/Server.java:58-62 | a component is in the result exactly when it is the inserted one or was in the listing |
| Server.InsertByNameSorted | src/main/java/com/thefatrat/application/sources/Server.java:58-62 | insertion keeps the listing sorted by case-insensitive name |
| Server.InsertByNameDistinct | src/main/java/com/thefatrat/application/sources/Server.java:58-62 | inserting a new component keeps the listing free of repeats |
| Server.PutAll | src/main/java/com/thefatrat/application/sources/Server.java:117 | the component map after putting each instance under its name in turn (its properties are the two lemmas below) |
| Server.PutAllFinds | src/main/java/com/thefatrat/application/sources/Server.java:117 | every registered instance is found under its own name |
| Server.PutAllKeepsOthers | src/main/java/com/thefatrat/application/sources/Server.java:117 | entries under other names are untouched by registration |
| Server.RegistrationUpsertsOwned | src/main/java/com/thefatrat/application/sources/Server.java:119-125 | registration requests no upsert when nothing toggles on, and an upsert of every owned name of each component that does |
| Server.Server.constructor | src/main/java/com/thefatrat/application/sources/Server.java:42-44 | a new server has empty mappings and a fresh direct handler with no keys |
| Server.Server.ConfirmUpsert | src/main/java/com/thefatrat/application/sources/Server.java:73-81 | an upsert confirmation records the id under the name, whether or not the component is still enabled |
| Server.Server.Forget | src/main/java/com/thefatrat/application/sources/Server.java:86-93 | the stream loop removes the names and logs the deletes exactly as `Unregister` says |
| Server.Server.ToggleComponent | src/main/java/com/thefatrat/application/sources/Server.java:64-103 | enable requests upserts for the commands then the interactions and marks the component enabled; disable marks it disabled, removes all its names, deletes exactly the ids found, and leaves other names alone |
| Server.Server.GetComponent | src/main/java/com/thefatrat/application/sources/Server.java:105-107 | found exactly when the lower-cased name is a key, and then the component stored there |
| Server.GetComponentIgnoresCase | src/main/java/com/thefatrat/application/sources/Server.java:105-107 | the lookup gives the same answer for a name and its lower-cased form |
| Server.GetComponentMissesUpperCaseKeys | src/main/java/com/thefatrat/application/sources/Server.java:105-117 | a component stored under a name with an upper-case letter is never found by lookup |
| Server.Server.GetComponents | src/main/java/com/thefatrat/application/sources/Server.java:58-62 | the listing is sorted by case-insensitive name, has no repeats, and holds exactly the stored components |
| Server.Server.RegisterComponents | src/main/java/com/thefatrat/application/sources/Server.java:110-133 | every instance is stored under its name; only a non-always-enabled instance whose stored flag is on is toggled on, with its upserts requested |
| Direct.Capitalize | src/main/java/com/thefatrat/application/sources/Direct.java:82 | the label has the key's length, an upper-cased first character and the rest unchanged |
| Direct.EncodeOption | src/main/java/com/thefatrat/application/sources/Direct.java:83 | the option value `serverId-key` (its round trip is `Direct.DecodeEncode`) |
| Direct.JavaSplit | src/main/java/com/thefatrat/application/sources/Direct.java:103 | Java's `split("-")`: cut at every dash, trailing empty pieces dropped |
| Direct.DecodeOption | src/main/java/com/thefatrat/application/sources/Direct.java:103-105 | the server id and key of an option value, none when the split has fewer than two pieces |
| Direct.SplitAllNoDash | src/main/java/com/thefatrat/application/sources/Direct.java:103 | a value without a dash splits into itself |
| Direct.SplitAllAtDash | src/main/java/com/thefatrat/application/sources/Direct.java:103 | splitting at a dash splits the two sides separately |
| Direct.DecodeEncode | src/main/java/com/thefatrat/application/sources/Direct.java:103-105 | an option value decodes back to its server id and key when neither has a dash and the key is non-empty |
| Direct.EncodeInjective | src/main/java/com/thefatrat/application/sources/Direct.java:83 | distinct dash-free (server, key) pairs have distinct option values |
| Direct.DecodeDashedKey | src/main/java/com/thefatrat/application/sources/Direct.java:103-105 | a key containing a dash is read back cut at its first dash |
| Direct.ExtendMenu | src/main/java/com/thefatrat/application/sources/Direct.java:81-84 | adding a new key's option extends the menu of the keys seen so far |
| Direct.SingleKeyMenu | src/main/java/com/thefatrat/application/sources/Direct.java:79-84 | a server with one key gets a menu with exactly that key's option |
| Direct.UncaughtReply | src/main/java/com/thefatrat/application/sources/Direct.java:136-147 | a failure escaping the worker is answered exactly when it is one of the bot's own exception kinds |
| Direct.Direct.constructor | src/main/java/com/thefatrat/application/sources/Direct.java:24 | the relay starts with no pending sessions |
| Direct.Direct.ServerOptions | src/main/java/com/thefatrat/application/sources/Direct.java:45-50 | one option per mutual guild, in order, labelled by name and valued by id |
| Direct.Direct.ComponentOptions | src/main/java/com/thefatrat/application/sources/Direct.java:79-84 | one option per handler key, and each option is a key's capitalized label with the value `serverId-key` |
| Direct.Direct.SendComponentMenu | src/main/java/com/thefatrat/application/sources/Direct.java:66-98 | an unknown server is an error; a server with no keys drops the session with a warning; an empty key fails; otherwise the key menu is shown |
| Direct.Direct.ReceiveMessage | src/main/java/com/thefatrat/application/sources/Direct.java:27-64 | no mutual guild, or a pending session, ignores the message; otherwise it is held under its author, then with one guild the key menu follows and with several the server menu |
| Direct.Direct.SelectMenu | src/main/java/com/thefatrat/application/sources/Direct.java:100-126 | a service choice with fewer than two parts fails before the session is touched; otherwise the session is removed, then an unknown server or key is an error, and a valid choice delivers the held message |
| Direct.Direct.ClickButton | src/main/java/com/thefatrat/application/sources/Direct.java:128-134 | the cancel button removes exactly the clicking user's session; other buttons change nothing |
| Direct.DeliveredMessageIsChoosers | src/main/java/com/thefatrat/application/sources/Direct.java:107-120 | the message delivered was written by the user who chose, and that user's session is gone |
| Direct.StepsTouchOnlyTheirUser | src/main/java/com/thefatrat/application/sources/Direct.java:66-77 | showing the key menu never changes another user's session |
| Direct.ScenarioOneServer | src/main/java/com/thefatrat/application/sources/Direct.java:27-126 | one mutual server with the key "feedback": the menu shows "Feedback", and choosing it delivers the original message and ends the session |
| Direct.ScenarioTwoServers | src/main/java/com/thefatrat/application/sources/Direct.java:33-50 | two mutual servers give the server menu; a second message while pending is ignored and the first is kept |
| DirectComponent.SetThenGet | src/main/java/com/thefatrat/application/components/DirectComponent.java:237-240 | a setting reads back as the value set, and other keys are unaffected |
| DirectComponent.AddThenGetSettings | src/main/java/com/thefatrat/application/components/DirectComponent.java:196-197 | adding a value adds exactly it to the multi-valued setting |
| DirectComponent.Without | src/main/java/com/thefatrat/application/components/DirectComponent.java:204 | removal keeps exactly the values different from the one removed |
| DirectComponent.RemoveValueThenGetSettings | src/main/java/com/thefatrat/application/components/DirectComponent.java:203-204 | removing a value removes exactly it from the multi-valued setting |
| DirectComponent.RemoveThenGetSettings | src/main/java/com/thefatrat/application/components/DirectComponent.java:159-160 | removing a setting leaves no value under it |
| DirectComponent.ChosenDestination | src/main/java/com/thefatrat/application/components/DirectComponent.java:57-74 | a supplied channel wins, then the current destination, and with neither the invoking text channel |
| DirectComponent.DirectComponent.constructor | src/main/java/com/thefatrat/application/components/DirectComponent.java:41-48 | destination and block-list are restored from the store; the component starts only when it auto-runs and the stored running flag parses as true |
| DirectComponent.DirectComponent.CurrentDestination | src/main/java/com/thefatrat/application/components/DirectComponent.java:242-247 | the destination exists only when the stored id names a text channel of the guild |
| DirectComponent.DirectComponent.Receive | src/main/java/com/thefatrat/application/components/DirectComponent.java:31-39 | a message is handled exactly when the destination resolves and the author is not blocked; otherwise an error or a warning |
| DirectComponent.StoredBlockedUserRejected | src/main/java/com/thefatrat/application/components/DirectComponent.java:35-48 | a user on the stored block-list is never handled, whatever the guild's channels |
| DirectComponent.DirectComponent.IsRunning | src/main/java/com/thefatrat/application/components/DirectComponent.java:249-251 | true exactly when running and enabled, so a disabled component never counts as running |
| DirectComponent.DirectComponent.Start | src/main/java/com/thefatrat/application/components/DirectComponent.java:229-235 | sets running, registers the receiver under the component's name, and stores "true" only when auto-running |
| DirectComponent.DirectComponent.Stop | src/main/java/com/thefatrat/application/components/DirectComponent.java:221-227 | removes the receiver, clears running, and stores "false" only when auto-running |
| DirectComponent.DirectComponent.SetDestination | src/main/java/com/thefatrat/application/components/DirectComponent.java:237-240 | the destination and its stored setting become the channel |
| DirectComponent.DirectComponent.StartCommand | src/main/java/com/thefatrat/application/components/DirectComponent.java:56-88 | no chosen channel is an error; the destination is permission-checked and replaced only when it differs; after a success the component runs, and the store gains the new destination only when it changed and the running flag only when auto-running |
| DirectComponent.DirectComponent.DestinationCommand | src/main/java/com/thefatrat/application/components/DirectComponent.java:95-113 | the supplied or invoking text channel is permission-checked and always becomes the destination, in the field and in the store; no text channel is an error |
| DirectComponent.DirectComponent.Blacklist | src/main/java/com/thefatrat/application/components/DirectComponent.java:187-208 | adding a listed user or removing an unlisted one is a warning that changes nothing; otherwise the list and the store gain or lose exactly that user |
| DirectComponent.DirectComponent.BlacklistCommand | src/main/java/com/thefatrat/application/components/DirectComponent.java:122-183 | add/remove without a user is an error; show and clear of an empty list warn; clear empties list and store; a non-member is an error; add and remove update list and store as `Blacklist` does; any other action removes |
| Manager.Allows | src/main/java/com/thefatrat/application/components/Manager.java:122-123 | the evaluation of a command predicate against the invoking member |
| Manager.Override | src/main/java/com/thefatrat/application/components/Manager.java:122-123 | the role override `hasAnyRole(role).or(IS_ADMIN)` (its meaning is `Manager.OverrideAllows`) |
| Manager.OverrideAllows | src/main/java/com/thefatrat/application/components/Manager.java:122-123 | under a role override exactly role holders and administrators pass |
| Manager.RegisteredAuthorization | src/main/java/com/thefatrat/application/components/Manager.java:22-153 | the five administrative commands pass exactly administrators; help and ping pass anyone |
| Manager.ParseLong | src/main/java/com/thefatrat/application/components/Manager.java:114 | a parsed role id is within the 64-bit range; empty input or a lone sign does not parse |
| Manager.DecimalStringValue | src/main/java/com/thefatrat/application/components/Manager.java:114 | the digits of a number's decimal form read back as the number |
| Manager.ParseLongString | src/main/java/com/thefatrat/application/components/Manager.java:114-126 | parsing the printed form of any long gives it back |
| Manager.ParseLongRejects | src/main/java/com/thefatrat/application/components/Manager.java:114-120 | a character other than a digit after the first position makes the id unparsable |
| Manager.HelpText | src/main/java/com/thefatrat/application/components/Manager.java:30-33 | the in-order concatenation of name, colon and help over a listing (its properties are the lemmas below) |
| Manager.HelpTextAppend | src/main/java/com/thefatrat/application/components/Manager.java:30-33 | the help listing of two listings in sequence is the concatenation of their listings |
| Manager.HelpTextSingle | src/main/java/com/thefatrat/application/components/Manager.java:31-32 | one component contributes its name, a colon and its help text |
| Manager.BuildHelp | src/main/java/com/thefatrat/application/components/Manager.java:29-33 | the builder loop produces the in-order concatenation `HelpText` |
| Manager.PrefixUpdate | src/main/java/com/thefatrat/application/components/Manager.java:50-56 | the prefix changes exactly with one argument in a guild, and then becomes that argument |
| Manager.ResolveRole | src/main/java/com/thefatrat/application/components/Manager.java:113-120 | a role is found exactly when the id parses and names a known role |
| Manager.StopIfRunning | src/main/java/com/thefatrat/application/components/Manager.java:87-89 | when it counts as running the component is stopped: flag cleared, receiver removed, running flag stored only when auto-running, destination and block-list kept; otherwise it and the handler are untouched |
| Manager.Manager.constructor | src/main/java/com/thefatrat/application/components/Manager.java:15-19 | the Manager is an always-enabled component named "Manager" |
| Manager.Manager.Register | src/main/java/com/thefatrat/application/components/Manager.java:22-153 | installs the seven command predicates |
| Manager.Manager.Help | src/main/java/com/thefatrat/application/components/Manager.java:25-35 | outside a guild nothing; otherwise the concatenated help of every component in case-insensitive name order |
| Manager.Manager.ToggleByName | src/main/java/com/thefatrat/application/components/Manager.java:66 | false and no change for an unknown name; otherwise the component's flag becomes the requested one and the mapping and request logs change as `ToggleEffect` says: upserts of every owned name on enable, removal of every owned name with a delete of each id found on disable |
| Manager.DisableForgetsOwnedNames | src/main/java/com/thefatrat/application/sources/Server.java:84-101 | after a disable no owned name has an id and every other entry is kept |
| Manager.EnableThenDisable | src/main/java/com/thefatrat/application/sources/Server.java:64-101 | enable, any confirmations, then disable leaves no entry owned by the component |
| Manager.Manager.EnableCommand | src/main/java/com/thefatrat/application/components/Manager.java:58-74 | wrong argument count or no guild leaves the server and the named component untouched; an unknown component gets "does not exist" and changes nothing; else it is enabled with the enabled reply and its upserts are requested |
| Manager.Manager.DisableAsWritten | src/main/java/com/thefatrat/application/components/Manager.java:76-95 | the disable command as written: the guards leave the server, the component, the DirectComponent and the handler untouched; on success the component is disabled and its ids forgotten, but the DirectComponent and the handler are left exactly as they were, so a running one keeps running and listening |
| Manager.Manager.Disable | src/main/java/com/thefatrat/application/components/Manager.java:76-95 | the corrected disable: the guards change nothing; on success the component is disabled and its ids forgotten, and a running DirectComponent is stopped with its receiver removed, its running flag stored as Stop stores it and its destination and block-list kept, while one not running and the handler are left exactly as they were |
| Manager.Manager.Permission | src/main/java/com/thefatrat/application/components/Manager.java:97-129 | guards, unknown component and unknown or unparsable role leave predicates unchanged; on success the typed name gets the role override |
| Manager.Manager.Revoke | src/main/java/com/thefatrat/application/components/Manager.java:131-152 | guards and an unknown component change nothing; otherwise the typed name's predicate becomes administrators only |
| Manager.RevokeAfterPermission | src/main/java/com/thefatrat/application/components/Manager.java:145-146 | after a revoke only administrators pass, whatever override was there |
| Manager.DisableLeavesComponentRunning | src/main/java/com/thefatrat/application/components/Manager.java:84-90 | a running DirectComponent disabled through the command as written is still running and its receiver is still registered |
| Manager.DisableStopsComponent | src/main/java/com/thefatrat/application/components/Manager.java:84-90 | with the corrected command the same component is stopped and its receiver removed |

## Left out

- Threads and races: the relay's worker thread, the blocking lookup of mutual guilds and concurrent confirmations are outside this sequential model, which runs one step at a time. For the same reason it cannot show that disable marks the component disabled before touching the id mapping (`Server.java:85`); `ToggleComponent` states only the resulting state.
- Platform rendering: embeds, buttons, menu texts, message deletion and the reply channel are left out; outcomes and replies are datatypes.
- Asynchronous completions: an upsert is a logged request plus a separate `ConfirmUpsert` call; deletions and setting-store writes take effect immediately.
- Reflection in `registerComponents` is replaced by a given list of distinct instances; their `register()` is not modelled.
- Component.java is not part of this model: a component is its name, flags, command and interaction names and help; it starts enabled exactly when it is always-enabled; the persisted enabled flag of the settings store is an input set.
- Source.java is not part of this model: `Manager.Manager.ToggleByName` assumes the name-based toggle looks the name up like `getComponent` and delegates to `Server.toggleComponent`; any refusal of always-enabled components it may make is not modelled.
- CommandHandler and PermissionChecker are not part of this model: predicates are a map to `Auth`, keyed by command name for the registered listeners and by the component name as typed for permission and revoke (Manager.java:122,145), and dispatching a command through them is not modelled.
- Manager.RegisteredPredicates: a listener registered without a predicate (help and ping, `Manager.java:25,37`) is taken to admit everyone (`Always`); what CommandHandler does for such a listener is not part of this model.
- Common.IsBotException: the failure of `requirePermission` is taken to be one of the bot's own exception kinds, answered with a reply; its class is not part of this model.
- Server.GetComponentMissesUpperCaseKeys: it speaks of the name a component is stored under; that this is the name as declared, without lower-casing, is an assumption about Component.getName(), which is not part of this model.
- handleDirect, the business handler of a concrete DirectComponent, is abstract in the source and not modelled; the relay's `Delivered` outcome stands for handing the message to the handler.
- The ping command needs the clock and is left out; setprefix only computes the new prefix (`Manager.PrefixUpdate`), since the bot's server registry is not part of this model.
- The show path's member retrieval and its `Long.parseLong` of stored ids are left out; `ShowList` returns the block-list itself.
- `requirePermission` is an input set of channels where links may be embedded; channel lookup by id is an input set of text channels.
- Case folding, capitalization and number parsing cover ASCII only; Java's Unicode case mapping and non-ASCII digits are not modelled.
- Initializer.java and ChannelManager.java are not modelled.
- Direct.Direct.ComponentOptions: the order of the key menu is left unspecified, because the key set's order is not fixed by the code.
- DirectComponent.DirectComponent.Blacklist: the warning texts and the `Ok(ADDED)`/`Ok(REMOVED)` replies omit the member mention that the source puts before them (`DirectComponent.java:193,200,207`).
- DirectComponent.DirectComponent.StartCommand: the success reply carries the channel id, not its mention; the same holds for DestinationCommand (`DirectComponent.java:82-84,111-112`).

## Findings

| source | as written | input that shows it | evidently intended | confidence | as-written member | corrected member |
|---|---|---|---|---|---|---|
| src/main/java/com/thefatrat/application/components/Manager.java:84-90 | after `toggleComponent(component, false)` has disabled the component, `direct.isRunning()`, which is `running && isEnabled()`, is always false, so `stop` is never called | `disable direct` on a server whose enabled DirectComponent "direct" has been started | a running DirectComponent is stopped by the disable and its receiver leaves the direct handler (the TODO at line 86 asks why it is not running) | not executed; assumes the name-based toggle disables the component as `Server.toggleComponent` does | Manager.Manager.DisableAsWritten, Manager.DisableLeavesComponentRunning | Manager.Manager.Disable, Manager.DisableStopsComponent |
