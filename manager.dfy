/** The always-enabled Manager component: the text commands an administrator
    uses to set the prefix, enable and disable components, and grant or
    revoke per-component command permissions, plus the help listing. */
module Manager {
  import opened Common
  import Server
  import DirectComponent

  const NAME := "Manager"

  const HELP :=
    "Commands:\n" +
    "  `help`\n" +
    "    - shows this message.\n" +
    "  `ping`\n" +
    "    - check the RTT of the connection in milliseconds.\n" +
    "  `setprefix`\n" +
    "    - set the prefix for all commands, - by default.\n" +
    "  `enable [component]`\n" +
    "    - enable a specific component by name.\n" +
    "  `disable [component]`\n" +
    "    - disable a specific component by name.\n" +
    "  `permission [component] [role id]`\n" +
    "    - allow the given role to manage the given component.\n" +
    "  `revoke [component]`\n" +
    "    - revoke all roles from managing the given component.\n"

  const MIN_LONG: int := -0x8000_0000_0000_0000
  const MAX_LONG: int := 0x7fff_ffff_ffff_ffff

  // ---------------------------------------------------------------------
  // Authorization predicates

  /** A command predicate: no restriction, administrators, holders of any of
      the roles, or either of two predicates. */
  datatype Auth = Always | IsAdmin | HasAnyRole(roles: set<int>) | Or(left: Auth, right: Auth)

  /** The invoking member as the predicates see them. */
  datatype Actor = Actor(isAdmin: bool, roles: set<int>)

  predicate Allows(a: Auth, who: Actor) {
    match a
    case Always => true
    case IsAdmin => who.isAdmin
    case HasAnyRole(roles) => exists r :: r in roles && r in who.roles
    case Or(left, right) => Allows(left, who) || Allows(right, who)
  }

  /** The predicate the permission command installs for a role. */
  function Override(role: int): Auth {
    Or(HasAnyRole({role}), IsAdmin)
  }

  /** Under an override a role holder passes, an administrator passes, and
      nobody else does. */
  lemma OverrideAllows(role: int, who: Actor)
    ensures Allows(Override(role), who) <==> role in who.roles || who.isAdmin
  {
    if role in who.roles {
      assert role in {role} && role in who.roles;
    }
  }

  const ADMIN_COMMANDS: set<string> := {"setprefix", "enable", "disable", "permission", "revoke"}

  /** The predicates `register` installs: help and ping for anyone, the rest
      for administrators. */
  function RegisteredPredicates(): (r: map<string, Auth>)
    ensures r.Keys == ADMIN_COMMANDS + {"help", "ping"}
    ensures forall k :: k in ADMIN_COMMANDS ==> r[k] == IsAdmin
  {
    map["help" := Always, "ping" := Always,
        "setprefix" := IsAdmin, "enable" := IsAdmin, "disable" := IsAdmin,
        "permission" := IsAdmin, "revoke" := IsAdmin]
  }

  /** A member who is not an administrator cannot run an administrative
      command, and anyone can run help and ping. */
  lemma RegisteredAuthorization(who: Actor, command: string)
    ensures command in ADMIN_COMMANDS ==>
      (Allows(RegisteredPredicates()[command], who) <==> who.isAdmin)
    ensures command in {"help", "ping"} ==> Allows(RegisteredPredicates()[command], who)
  {
  }

  // ---------------------------------------------------------------------
  // Long.parseLong on ASCII digits

  function DigitValue(c: char): nat
    requires '0' <= c <= '9'
  {
    c as int - '0' as int
  }

  predicate AllDigits(s: string) {
    forall i :: 0 <= i < |s| ==> '0' <= s[i] <= '9'
  }

  /** The value of a string of decimal digits, read from the most significant
      end. */
  function DigitsValue(s: string): nat
    requires AllDigits(s)
    decreases |s|
  {
    if s == [] then 0 else DigitsValue(s[..|s| - 1]) * 10 + DigitValue(s[|s| - 1])
  }

  /** An optional sign followed by at least one digit, within the range of a
      64-bit long; anything else is a NumberFormatException. */
  function ParseLong(s: string): (r: Option<int>)
    ensures r.Some? ==> MIN_LONG <= r.value <= MAX_LONG
    ensures s == [] || s == "-" || s == "+" ==> r == None
  {
    if s == [] then None
    else
      var digits := if s[0] == '-' || s[0] == '+' then s[1..] else s;
      if digits == [] || !AllDigits(digits) then None
      else
        var magnitude: int := DigitsValue(digits);
        var v := if s[0] == '-' then -magnitude else magnitude;
        if MIN_LONG <= v <= MAX_LONG then Some(v) else None
  }

  function DigitChar(d: nat): (c: char)
    requires d < 10
    ensures '0' <= c <= '9' && DigitValue(c) == d
  {
    ('0' as int + d) as char
  }

  /** The canonical decimal form of a natural number. */
  function DecimalString(n: nat): (s: string)
    ensures s != [] && AllDigits(s)
    decreases n
  {
    if n < 10 then [DigitChar(n)] else DecimalString(n / 10) + [DigitChar(n % 10)]
  }

  /** Long.toString: a minus sign for negative values. */
  function LongString(n: int): string {
    if n < 0 then "-" + DecimalString(-n) else DecimalString(n)
  }

  lemma {:induction false} DecimalStringValue(n: nat)
    ensures DigitsValue(DecimalString(n)) == n
    decreases n
  {
    if n >= 10 {
      var s := DecimalString(n);
      assert s[..|s| - 1] == DecimalString(n / 10);
      DecimalStringValue(n / 10);
    }
  }

  /** Parsing the printed form of a long gives the long back. */
  lemma ParseLongString(n: int)
    requires MIN_LONG <= n <= MAX_LONG
    ensures ParseLong(LongString(n)) == Some(n)
  {
    var s := LongString(n);
    if n < 0 {
      DecimalStringValue(-n);
      assert s[1..] == DecimalString(-n);
    } else {
      DecimalStringValue(n);
    }
  }

  /** A string with a character that is neither a digit nor a leading sign
      does not parse. */
  lemma ParseLongRejects(s: string, i: nat)
    requires 0 < i < |s| && !('0' <= s[i] <= '9')
    ensures ParseLong(s) == None
  {
    var digits := if s[0] == '-' || s[0] == '+' then s[1..] else s;
    if s[0] == '-' || s[0] == '+' {
      assert digits[i - 1] == s[i];
    } else {
      assert digits[i] == s[i];
    }
  }

  // ---------------------------------------------------------------------
  // Help listing

  /** Each component's name, a colon and its help text, in listing order. */
  function HelpText(cs: seq<Server.Component>): string
    decreases |cs|
  {
    if cs == [] then ""
    else HelpText(cs[..|cs| - 1]) + cs[|cs| - 1].name + ":" + cs[|cs| - 1].help
  }

  /** The listing of a concatenation is the concatenation of the listings. */
  lemma {:induction false} HelpTextAppend(a: seq<Server.Component>, b: seq<Server.Component>)
    ensures HelpText(a + b) == HelpText(a) + HelpText(b)
    decreases |b|
  {
    if b == [] {
      assert a + b == a;
    } else {
      var last := b[|b| - 1];
      assert (a + b)[..|a + b| - 1] == a + b[..|b| - 1];
      HelpTextAppend(a, b[..|b| - 1]);
    }
  }

  /** The entry of a single component. */
  lemma HelpTextSingle(c: Server.Component)
    ensures HelpText([c]) == c.name + ":" + c.help
  {
    assert [c][..0] == [];
  }

  /** The string-builder loop of the help command. */
  method BuildHelp(listing: seq<Server.Component>) returns (text: string)
    ensures text == HelpText(listing)
  {
    text := "";
    var i := 0;
    while i < |listing|
      invariant 0 <= i <= |listing|
      invariant text == HelpText(listing[..i])
    {
      assert listing[..i + 1][..i] == listing[..i];
      text := text + listing[i].name + ":" + listing[i].help;
      i := i + 1;
    }
    assert listing[..|listing|] == listing;
  }

  // ---------------------------------------------------------------------
  // Command replies

  /** What a command sends to the invoking channel, if anything. */
  datatype Response = NoResponse | Says(text: string)

  /** The guard of every administrative command: exactly `arity` arguments,
      invoked in a guild. */
  predicate Accepts(args: seq<string>, arity: nat, fromGuild: bool) {
    |args| == arity && fromGuild
  }

  function Enabled(name: string): string {
    ":ballot_box_with_check: Component `" + name + "` enabled"
  }

  function Disabled(name: string): string {
    ":no_entry: Component `" + name + "` disabled"
  }

  function Missing(name: string): string {
    ":x: Component `" + name + "` does not exist"
  }

  function NotAComponent(name: string): string {
    "Component `" + name + "` does not exist"
  }

  const ROLE_NOT_FOUND := "The given role ID was not found"

  function Granted(roleName: string, roleId: int, component: string): string {
    "Role `" + roleName + " (" + LongString(roleId) + ")` now has command permissions for component `" + component + "`"
  }

  function Reset(component: string): string {
    "Command permissions for component `" + component + "` have been reset"
  }

  /** The new prefix the setprefix command gives its server, if any. */
  function PrefixUpdate(args: seq<string>, fromGuild: bool): (r: Option<string>)
    ensures r.Some? <==> Accepts(args, 1, fromGuild)
    ensures r.Some? ==> r.value == args[0]
  {
    if Accepts(args, 1, fromGuild) then Some(args[0]) else None
  }

  /** The role a permission command resolves: the second argument parsed as a
      long and found among the bot's roles `roles` (id to role name). */
  function ResolveRole(arg: string, roles: map<int, string>): (r: Option<int>)
    ensures r.Some? ==> r.value in roles && ParseLong(arg) == Some(r.value)
    ensures r.None? ==> ParseLong(arg).None? || ParseLong(arg).value !in roles
  {
    var id := ParseLong(arg);
    if id.Some? && id.value in roles then id else None
  }

  /** The DirectComponent view of the component `name` resolves to in
      `server`, when it is one: it shares the component's state and listens on
      the server's direct handler. */
  ghost predicate IsDirectView(server: Server.Server, name: string, direct: Option<DirectComponent.DirectComponent>)
    reads server
  {
    direct.Some? ==>
      Lower(name) in server.components &&
      direct.value.base == server.components[Lower(name)] &&
      direct.value.handler == server.directHandler
  }

  /** The components a toggle by `name` may change. */
  function Target(server: Server.Server, name: string): set<Server.Component>
    reads server
  {
    if Lower(name) in server.components then {server.components[Lower(name)]} else {}
  }

  function Views(direct: Option<DirectComponent.DirectComponent>): set<DirectComponent.DirectComponent> {
    if direct.Some? then {direct.value} else {}
  }

  /** The step of the disable command that follows the toggle: the
      DirectComponent is stopped when it counts as running, that is when it
      is running and its component is enabled. */
  method StopIfRunning(direct: DirectComponent.DirectComponent)
    requires direct.Valid()
    modifies direct, direct.handler
    ensures direct.Valid()
    ensures old(direct.IsRunning()) ==>
      && !direct.running
      && direct.handler.keys == old(direct.handler.keys) - {direct.base.name}
      && direct.settings == (if direct.autoRun then DirectComponent.SetSetting(old(direct.settings), DirectComponent.RUNNING, "false") else old(direct.settings))
      && direct.destination == old(direct.destination) && direct.blacklist == old(direct.blacklist)
    ensures !old(direct.IsRunning()) ==> unchanged(direct) && unchanged(direct.handler)
  {
    if direct.IsRunning() {
      direct.Stop();
    }
  }

  /** The request logs and id mapping after the server toggled `c`: enabling
      requests an upsert of each owned name and leaves the mapping alone;
      disabling removes the owned names and requests deletion of each id
      found. */
  ghost predicate ToggleEffect(c: Server.Component, enable: bool,
                               ids: map<string, string>, upserts: seq<string>, deletes: seq<string>,
                               ids': map<string, string>, upserts': seq<string>, deletes': seq<string>)
  {
    if enable then
      upserts' == upserts + Server.OwnedNames(c) && ids' == ids && deletes' == deletes
    else
      && upserts' == upserts
      && ids' == Server.Unregister(ids, Server.OwnedNames(c)).remaining
      && deletes' == deletes + Server.Unregister(ids, Server.OwnedNames(c)).deleted
  }

  /** A disable leaves no id under any name the component owns, and keeps
      every other entry of the mapping. */
  lemma DisableForgetsOwnedNames(c: Server.Component,
                                 ids: map<string, string>, upserts: seq<string>, deletes: seq<string>,
                                 ids': map<string, string>, upserts': seq<string>, deletes': seq<string>)
    requires ToggleEffect(c, false, ids, upserts, deletes, ids', upserts', deletes')
    ensures forall n :: n in Server.OwnedNames(c) ==> n !in ids'
    ensures forall n :: n in ids && n !in Server.OwnedNames(c) ==> n in ids' && ids'[n] == ids[n]
  {
  }

  /** Enabling and then disabling a component, with any upsert confirmations
      arriving in between, leaves no entry owned by it. */
  lemma EnableThenDisable(c: Server.Component, confirmed: map<string, string>,
                          ids: map<string, string>, upserts: seq<string>, deletes: seq<string>,
                          ids1: map<string, string>, upserts1: seq<string>, deletes1: seq<string>,
                          ids2: map<string, string>, upserts2: seq<string>, deletes2: seq<string>)
    requires ToggleEffect(c, true, ids, upserts, deletes, ids1, upserts1, deletes1)
    requires ToggleEffect(c, false, ids1 + confirmed, upserts1, deletes1, ids2, upserts2, deletes2)
    ensures forall n :: n in Server.OwnedNames(c) ==> n !in ids2
    ensures upserts2 == upserts + Server.OwnedNames(c)
  {
    DisableForgetsOwnedNames(c, ids1 + confirmed, upserts1, deletes1, ids2, upserts2, deletes2);
  }

  class Manager {
    const base: Server.Component
    const server: Server.Server
    /** The predicates of the server's command handler: by command name for
        the registered listeners, and by the component name as typed for
        the overrides of permission and revoke. */
    var predicates: map<string, Auth>

    constructor (server: Server.Server)
      ensures this.server == server && predicates == map[]
      ensures base.name == NAME && base.alwaysEnabled && base.enabled && base.help == HELP
      ensures base.commands == [] && base.interactions == []
    {
      base := new Server.Component(NAME, true, [], [], HELP);
      this.server := server;
      predicates := map[];
    }

    /** Installs the seven text commands with their predicates. */
    method Register()
      modifies this
      ensures predicates == old(predicates) + RegisteredPredicates()
    {
      predicates := predicates + RegisteredPredicates();
    }

    /** The help command: outside a guild nothing, otherwise the listing of
        every component of the server in case-insensitive name order. */
    method Help(fromGuild: bool) returns (r: Response, listing: seq<Server.Component>)
      requires server.Valid()
      ensures r.Says? <==> fromGuild
      ensures fromGuild ==>
        Server.SortedByName(listing) && Server.Distinct(listing) &&
        (forall k :: k in server.components ==> server.components[k] in listing) &&
        (forall i :: 0 <= i < |listing| ==> listing[i] in server.components.Values) &&
        r.text == HelpText(listing)
    {
      listing := [];
      if !fromGuild {
        return NoResponse, listing;
      }
      listing := server.GetComponents();
      var text := BuildHelp(listing);
      r := Says(text);
    }

    /** `toggleComponent` by name: the name is resolved case-insensitively;
        an unknown name is reported as false and changes nothing, a known one
        is toggled by the server. */
    method ToggleByName(name: string, enable: bool) returns (found: bool)
      modifies server, Target(server, name)
      ensures found <==> Lower(name) in old(server.components)
      ensures server.components == old(server.components)
      ensures !found ==> unchanged(server)
      ensures found ==> server.components[Lower(name)].enabled == enable
      ensures found ==>
        ToggleEffect(server.components[Lower(name)], enable,
                     old(server.commandIds), old(server.upserts), old(server.deletes),
                     server.commandIds, server.upserts, server.deletes)
    {
      var c := server.GetComponent(name);
      if c.None? {
        return false;
      }
      server.ToggleComponent(c.value, enable);
      found := true;
    }

    /** The enable command. */
    method EnableCommand(args: seq<string>, fromGuild: bool) returns (r: Response)
      modifies server, if |args| == 1 then Target(server, args[0]) else {}
      ensures server.components == old(server.components)
      ensures !Accepts(args, 1, fromGuild) ==>
        r == NoResponse && unchanged(server) && (|args| == 1 ==> unchanged(Target(server, args[0])))
      ensures Accepts(args, 1, fromGuild) && Lower(args[0]) !in old(server.components) ==>
        r == Says(Missing(args[0])) && unchanged(server)
      ensures Accepts(args, 1, fromGuild) && Lower(args[0]) in old(server.components) ==>
        r == Says(Enabled(args[0])) && server.components[Lower(args[0])].enabled &&
        ToggleEffect(server.components[Lower(args[0])], true,
                     old(server.commandIds), old(server.upserts), old(server.deletes),
                     server.commandIds, server.upserts, server.deletes)
    {
      if !Accepts(args, 1, fromGuild) {
        return NoResponse;
      }
      var found := ToggleByName(args[0], true);
      r := if found then Says(Enabled(args[0])) else Says(Missing(args[0]));
    }

    /** The disable command as written: after a successful toggle the
        DirectComponent view, if any, is stopped only when it is running. */
    method DisableAsWritten(args: seq<string>, fromGuild: bool, direct: Option<DirectComponent.DirectComponent>)
      returns (r: Response)
      requires |args| == 1 ==> IsDirectView(server, args[0], direct)
      requires direct.Some? ==> direct.value.Valid()
      modifies server, (if |args| == 1 then Target(server, args[0]) else {}), Views(direct)
      modifies if direct.Some? then {direct.value.handler} else {}
      ensures server.components == old(server.components)
      ensures !Accepts(args, 1, fromGuild) ==>
        r == NoResponse && unchanged(server) && (|args| == 1 ==> unchanged(Target(server, args[0])))
      ensures Accepts(args, 1, fromGuild) && Lower(args[0]) !in old(server.components) ==>
        r == Says(Missing(args[0])) && unchanged(server)
      ensures (!Accepts(args, 1, fromGuild) || Lower(args[0]) !in old(server.components)) && direct.Some? ==>
        unchanged(direct.value) && unchanged(direct.value.handler)
      ensures Accepts(args, 1, fromGuild) && Lower(args[0]) in old(server.components) ==>
        r == Says(Disabled(args[0])) && !server.components[Lower(args[0])].enabled &&
        ToggleEffect(server.components[Lower(args[0])], false,
                     old(server.commandIds), old(server.upserts), old(server.deletes),
                     server.commandIds, server.upserts, server.deletes)
      ensures Accepts(args, 1, fromGuild) && Lower(args[0]) in old(server.components) && direct.Some? ==>
        direct.value.running == old(direct.value.running) &&
        direct.value.handler.keys == old(direct.value.handler.keys) &&
        unchanged(direct.value) && unchanged(direct.value.handler)
    {
      if !Accepts(args, 1, fromGuild) {
        return NoResponse;
      }
      var found := ToggleByName(args[0], false);
      if found {
        if direct.Some? {
          StopIfRunning(direct.value);
        }
        r := Says(Disabled(args[0]));
      } else {
        r := Says(Missing(args[0]));
      }
    }

    /** The disable command with the evidently intended behaviour: a running
        DirectComponent is stopped together with the disable, so its receiver
        leaves the direct handler. */
    method Disable(args: seq<string>, fromGuild: bool, direct: Option<DirectComponent.DirectComponent>)
      returns (r: Response)
      requires |args| == 1 ==> IsDirectView(server, args[0], direct)
      requires direct.Some? ==> direct.value.Valid()
      modifies server, (if |args| == 1 then Target(server, args[0]) else {}), Views(direct)
      modifies if direct.Some? then {direct.value.handler} else {}
      ensures server.components == old(server.components)
      ensures !Accepts(args, 1, fromGuild) ==>
        r == NoResponse && unchanged(server) && (|args| == 1 ==> unchanged(Target(server, args[0])))
      ensures Accepts(args, 1, fromGuild) && Lower(args[0]) !in old(server.components) ==>
        r == Says(Missing(args[0])) && unchanged(server)
      ensures (!Accepts(args, 1, fromGuild) || Lower(args[0]) !in old(server.components)) && direct.Some? ==>
        unchanged(direct.value) && unchanged(direct.value.handler)
      ensures Accepts(args, 1, fromGuild) && Lower(args[0]) in old(server.components) ==>
        r == Says(Disabled(args[0])) && !server.components[Lower(args[0])].enabled &&
        ToggleEffect(server.components[Lower(args[0])], false,
                     old(server.commandIds), old(server.upserts), old(server.deletes),
                     server.commandIds, server.upserts, server.deletes)
      ensures Accepts(args, 1, fromGuild) && Lower(args[0]) in old(server.components) && direct.Some? ==>
        direct.value.Valid() && !direct.value.running &&
        (old(direct.value.running) ==>
          && direct.value.handler.keys == old(direct.value.handler.keys) - {direct.value.base.name}
          && direct.value.settings ==
               (if direct.value.autoRun then DirectComponent.SetSetting(old(direct.value.settings), DirectComponent.RUNNING, "false")
                else old(direct.value.settings))
          && direct.value.destination == old(direct.value.destination)
          && direct.value.blacklist == old(direct.value.blacklist)) &&
        (!old(direct.value.running) ==> unchanged(direct.value) && unchanged(direct.value.handler))
    {
      if !Accepts(args, 1, fromGuild) {
        return NoResponse;
      }
      var found := ToggleByName(args[0], false);
      if found {
        if direct.Some? {
          if direct.value.running {
            direct.value.Stop();
          }
        }
        r := Says(Disabled(args[0]));
      } else {
        r := Says(Missing(args[0]));
      }
    }

    /** The permission command: the named component must exist and the role
        id must parse and name a known role; then the predicate under the
        name as typed becomes the role override. */
    method Permission(args: seq<string>, fromGuild: bool, roles: map<int, string>) returns (r: Response)
      modifies this
      ensures !Accepts(args, 2, fromGuild) ==> r == NoResponse && predicates == old(predicates)
      ensures Accepts(args, 2, fromGuild) && server.GetComponent(args[0]).None? ==>
        r == Says(NotAComponent(args[0])) && predicates == old(predicates)
      ensures Accepts(args, 2, fromGuild) && server.GetComponent(args[0]).Some? &&
              ResolveRole(args[1], roles).None? ==>
        r == Says(ROLE_NOT_FOUND) && predicates == old(predicates)
      ensures Accepts(args, 2, fromGuild) && server.GetComponent(args[0]).Some? &&
              ResolveRole(args[1], roles).Some? ==>
        var id := ResolveRole(args[1], roles).value;
        r == Says(Granted(roles[id], id, args[0])) && predicates == old(predicates)[args[0] := Override(id)]
    {
      if !Accepts(args, 2, fromGuild) {
        return NoResponse;
      }
      if server.GetComponent(args[0]).None? {
        return Says(NotAComponent(args[0]));
      }
      var role := ResolveRole(args[1], roles);
      if role.None? {
        return Says(ROLE_NOT_FOUND);
      }
      predicates := predicates[args[0] := Override(role.value)];
      r := Says(Granted(roles[role.value], role.value, args[0]));
    }

    /** The revoke command: the predicate under the name as typed goes back to
        administrators only. */
    method Revoke(args: seq<string>, fromGuild: bool) returns (r: Response)
      modifies this
      ensures !Accepts(args, 1, fromGuild) ==> r == NoResponse && predicates == old(predicates)
      ensures Accepts(args, 1, fromGuild) && server.GetComponent(args[0]).None? ==>
        r == Says(NotAComponent(args[0])) && predicates == old(predicates)
      ensures Accepts(args, 1, fromGuild) && server.GetComponent(args[0]).Some? ==>
        r == Says(Reset(args[0])) && predicates == old(predicates)[args[0] := IsAdmin]
    {
      if !Accepts(args, 1, fromGuild) {
        return NoResponse;
      }
      if server.GetComponent(args[0]).None? {
        return Says(NotAComponent(args[0]));
      }
      predicates := predicates[args[0] := IsAdmin];
      r := Says(Reset(args[0]));
    }
  }

  /** After a revoke only administrators pass the component's predicate, even
      for a role that held an override before. */
  lemma RevokeAfterPermission(preds: map<string, Auth>, name: string, role: int, who: Actor)
    ensures Allows(preds[name := Override(role)][name := IsAdmin][name], who) <==> who.isAdmin
  {
  }

  /** A server whose one component "direct" is registered and enabled. */
  method ServerWithDirect() returns (server: Server.Server, c: Server.Component)
    ensures fresh(server) && fresh(server.directHandler) && fresh(c)
    ensures server.Valid() && server.components == map["direct" := c]
    ensures c.enabled && c.name == "direct" && server.directHandler.keys == {}
  {
    server := new Server.Server("guild");
    c := new Server.Component("direct", false, ["direct"], [], "");
    server.RegisterComponents([c], {"direct"});
    assert [c][0] == c;
    assert server.components == map["direct" := c];
  }

  /** The same server with a running DirectComponent view of "direct"
      listening on the server's direct handler. */
  method RunningDirect() returns (server: Server.Server, direct: DirectComponent.DirectComponent)
    ensures fresh(server) && fresh(server.directHandler) && fresh(direct) && fresh(direct.base)
    ensures server.Valid() && direct.Valid()
    ensures server.components == map["direct" := direct.base]
    ensures IsDirectView(server, "direct", Some(direct))
    ensures direct.running && direct.base.enabled && direct.base.name == "direct"
    ensures "direct" in server.directHandler.keys
  {
    var c;
    server, c := ServerWithDirect();
    var stored: DirectComponent.Settings := map["destination" := ["channel"]];
    direct := new DirectComponent.DirectComponent(c, server.directHandler, false, stored);
    direct.Start();
    assert Lower("direct") == "direct";
  }

  /** A running DirectComponent that is disabled through the command as
      written is still running, and its receiver is still registered. */
  method DisableLeavesComponentRunning() returns (stillRunning: bool, stillListening: bool)
    ensures stillRunning && stillListening
  {
    var server, direct := RunningDirect();
    var manager := new Manager(server);
    var r := manager.DisableAsWritten(["direct"], true, Some(direct));
    stillRunning := direct.running;
    stillListening := "direct" in server.directHandler.keys;
  }

  /** The same situation with the corrected command: the component is
      stopped and its receiver is gone. */
  method DisableStopsComponent() returns (stillRunning: bool, stillListening: bool)
    ensures !stillRunning && !stillListening
  {
    var server, direct := RunningDirect();
    var manager := new Manager(server);
    var r := manager.Disable(["direct"], true, Some(direct));
    stillRunning := direct.running;
    stillListening := "direct" in server.directHandler.keys;
  }
}
