/** A component that receives relayed direct messages: it forwards them to a
    destination channel while running, and refuses the authors on its
    block-list. Its destination, running flag and block-list are persisted in
    the component's settings store, modelled here as an in-memory map from a
    setting key to its list of values. */
module DirectComponent {
  import opened Common
  import Server

  const DESTINATION := "destination"
  const RUNNING := "running"
  const BLACKLIST := "blacklist"
  const EMBED_LINKS := "MESSAGE_EMBED_LINKS"

  const SOMETHING_WRONG := "Something went wrong"
  const NOT_ALLOWED := "You are not allowed to send messages at the moment"
  const START_TEXT_ONLY := "Can only start in a text channel"
  const DESTINATION_TEXT_ONLY := "Destination can only be a text channel"
  const SPECIFY_USER := "Please specify the user"
  const NOBODY_LISTED := "No users are added to the blacklist"
  const ALREADY_EMPTY := "The blacklist is already empty"
  const MEMBER_NOT_FOUND := "The given member was not found"
  const ALREADY_LISTED := "is already on the blacklist"
  const NOT_LISTED := "is not on the blacklist"
  const DESTINATION_SET := "Destination set to "
  const CLEARED := "Blacklist cleared"
  const ADDED := "added to the blacklist"
  const REMOVED := "removed from the blacklist"

  type Settings = map<string, seq<string>>

  /** The values stored under `key`, none if it is absent. */
  function Values(st: Settings, key: string): seq<string> {
    if key in st then st[key] else []
  }

  /** The single-valued reading of a setting: its first value. */
  function GetSetting(st: Settings, key: string): Option<string> {
    if Values(st, key) != [] then Some(Values(st, key)[0]) else None
  }

  function GetSettingOr(st: Settings, key: string, default: string): string {
    if Values(st, key) != [] then Values(st, key)[0] else default
  }

  /** The multi-valued reading of a setting. */
  function GetSettings(st: Settings, key: string): set<string> {
    set v | v in Values(st, key)
  }

  function SetSetting(st: Settings, key: string, value: string): Settings {
    st[key := [value]]
  }

  function AddSetting(st: Settings, key: string, value: string): Settings {
    st[key := Values(st, key) + [value]]
  }

  function RemoveSetting(st: Settings, key: string): Settings {
    st - {key}
  }

  /** `s` without any occurrence of `v`. */
  function Without(s: seq<string>, v: string): (r: seq<string>)
    ensures forall x :: x in r <==> x in s && x != v
  {
    if s == [] then []
    else (if s[0] == v then [] else [s[0]]) + Without(s[1..], v)
  }

  function RemoveSettingValue(st: Settings, key: string, value: string): Settings {
    st[key := Without(Values(st, key), value)]
  }

  /** Reading back what was written, and the effect of each multi-valued
      update on the values read back; other keys are untouched. */
  lemma SetThenGet(st: Settings, key: string, value: string, other: string)
    ensures GetSetting(SetSetting(st, key, value), key) == Some(value)
    ensures GetSettingOr(SetSetting(st, key, value), key, "") == value
    ensures other != key ==> Values(SetSetting(st, key, value), other) == Values(st, other)
  {
  }

  lemma AddThenGetSettings(st: Settings, key: string, value: string)
    ensures GetSettings(AddSetting(st, key, value), key) == GetSettings(st, key) + {value}
  {
  }

  lemma RemoveValueThenGetSettings(st: Settings, key: string, value: string)
    ensures GetSettings(RemoveSettingValue(st, key, value), key) == GetSettings(st, key) - {value}
  {
  }

  lemma RemoveThenGetSettings(st: Settings, key: string)
    ensures GetSettings(RemoveSetting(st, key), key) == {}
    ensures GetSetting(RemoveSetting(st, key), key) == None
  {
  }

  /** The answer to a subcommand. `ShowList` stands for the embed listing the
      blocked members. */
  datatype Reply =
    | Silent
    | Ok(text: string)
    | ShowList(users: set<string>)
    | Refused(failure: Failure)

  /** Whether a relayed message reaches the component's own handler. */
  datatype Admission = Handled | Rejected(failure: Failure)

  /** The user option of the block-list subcommand: absent, a user who is not
      a member of the guild, or a member with their id. */
  datatype UserArg = NoUser | NotMember | Member(id: string)

  /** The destination the start subcommand settles on: a supplied channel
      wins, then the current destination, then the invoking channel when it
      is a text channel; None when there is none of them. */
  function ChosenDestination(current: Option<string>, supplied: Option<string>, invoking: Option<string>)
    : (r: Option<string>)
    ensures supplied.Some? ==> r == supplied
    ensures supplied.None? && current.Some? ==> r == current
    ensures supplied.None? && current.None? ==> r == invoking
  {
    if current.None? && supplied.None? then invoking
    else if supplied.Some? then supplied
    else current
  }

  class DirectComponent {
    const base: Server.Component
    const handler: Server.MessageHandler
    const autoRun: bool
    var running: bool
    var destination: Option<string>
    var blacklist: set<string>
    var settings: Settings

    /** The destination and the block-list agree with the store. */
    ghost predicate Mirrors()
      reads this
    {
      destination == GetSetting(settings, DESTINATION) && blacklist == GetSettings(settings, BLACKLIST)
    }

    /** In addition, an auto-running component has its running flag stored. */
    ghost predicate Valid()
      reads this
    {
      Mirrors() && (autoRun ==> (running <==> ParseBoolean(GetSettingOr(settings, RUNNING, "false"))))
    }

    /** Restores the destination and the block-list from the store, and starts
        the component when it auto-runs and the stored running flag is
        true. */
    constructor (base: Server.Component, handler: Server.MessageHandler, autoRun: bool, stored: Settings)
      modifies handler
      ensures Valid()
      ensures this.base == base && this.handler == handler && this.autoRun == autoRun
      ensures destination == GetSetting(stored, DESTINATION)
      ensures blacklist == GetSettings(stored, BLACKLIST)
      ensures running == (autoRun && ParseBoolean(GetSettingOr(stored, RUNNING, "false")))
      ensures handler.keys == if running then old(handler.keys) + {base.name} else old(handler.keys)
      ensures settings == if running then SetSetting(stored, RUNNING, "true") else stored
    {
      this.base := base;
      this.handler := handler;
      this.autoRun := autoRun;
      settings := stored;
      destination := GetSetting(stored, DESTINATION);
      blacklist := GetSettings(stored, BLACKLIST);
      running := false;
      new;
      if autoRun && ParseBoolean(GetSettingOr(settings, RUNNING, "false")) {
        Start();
      }
    }

    /** The destination as the guild resolves it: the stored id when it still
        names one of the guild's text channels `channels`, otherwise none. */
    function CurrentDestination(channels: set<string>): (r: Option<string>)
      reads this
      ensures r.Some? <==> destination.Some? && destination.value in channels
      ensures r.Some? ==> r == destination
    {
      if destination.Some? && destination.value in channels then destination else None
    }

    /** The receiver registered with the direct-message handler: without a
        destination that resolves it fails, a blocked author is refused, and
        anyone else's message goes on to the component's handler. */
    function Receive(authorId: string, channels: set<string>): (r: Admission)
      reads this
      ensures r == Handled <==> CurrentDestination(channels).Some? && authorId !in blacklist
      ensures CurrentDestination(channels).None? ==> r == Rejected(Error(SOMETHING_WRONG))
      ensures CurrentDestination(channels).Some? && authorId in blacklist ==> r == Rejected(Warning(NOT_ALLOWED))
    {
      if CurrentDestination(channels).None? then Rejected(Error(SOMETHING_WRONG))
      else if authorId in blacklist then Rejected(Warning(NOT_ALLOWED))
      else Handled
    }

    /** Running and enabled. */
    function IsRunning(): (r: bool)
      reads this, base
      ensures r <==> running && base.enabled
      ensures !base.enabled ==> !r
    {
      running && base.enabled
    }

    /** Registers the receiver under the component's name and sets the
        running flag, storing it when the component auto-runs. */
    method Start()
      requires Mirrors()
      modifies this, handler
      ensures Valid()
      ensures running
      ensures handler.keys == old(handler.keys) + {base.name}
      ensures settings == if autoRun then SetSetting(old(settings), RUNNING, "true") else old(settings)
      ensures destination == old(destination) && blacklist == old(blacklist)
    {
      running := true;
      handler.AddListener(base.name);
      if autoRun {
        settings := SetSetting(settings, RUNNING, "true");
        assert GetSettingOr(settings, RUNNING, "false") == "true";
        assert Lower("true") == "true";
      }
    }

    /** Removes the receiver and clears the running flag, storing it when the
        component auto-runs. */
    method Stop()
      requires Mirrors()
      modifies this, handler
      ensures Valid()
      ensures !running
      ensures handler.keys == old(handler.keys) - {base.name}
      ensures settings == if autoRun then SetSetting(old(settings), RUNNING, "false") else old(settings)
      ensures destination == old(destination) && blacklist == old(blacklist)
    {
      handler.RemoveListener(base.name);
      running := false;
      if autoRun {
        settings := SetSetting(settings, RUNNING, "false");
        assert GetSettingOr(settings, RUNNING, "false") == "false";
        assert Lower("false") == "false";
      }
    }

    method SetDestination(channelId: string)
      requires Valid()
      modifies this
      ensures Valid()
      ensures destination == Some(channelId)
      ensures settings == SetSetting(old(settings), DESTINATION, channelId)
      ensures running == old(running) && blacklist == old(blacklist)
    {
      destination := Some(channelId);
      settings := SetSetting(settings, DESTINATION, channelId);
    }

    /** The start subcommand. `supplied` is the channel option, `invoking`
        the invoking channel when it is a text channel, `channels` the
        guild's text channels and `embeddable` the channels where the bot may
        embed links. The destination is checked
        and replaced only when the chosen one differs from the current one;
        the component is started in every case that does not fail. */
    method StartCommand(supplied: Option<string>, invoking: Option<string>, channels: set<string>,
                        embeddable: set<string>)
      returns (r: Reply)
      requires Valid()
      modifies this, handler
      ensures Valid()
      ensures var current := old(CurrentDestination(channels));
        var target := ChosenDestination(current, supplied, invoking);
        if target.None? then
          r == Refused(Error(START_TEXT_ONLY)) && unchanged(this) && handler.keys == old(handler.keys)
        else if target != current && target.value !in embeddable then
          r == Refused(MissingPermission(EMBED_LINKS)) && unchanged(this) && handler.keys == old(handler.keys)
        else
          && destination == target
          && running
          && handler.keys == old(handler.keys) + {base.name}
          && r == (if target != current then Ok(DESTINATION_SET + target.value) else Silent)
          && blacklist == old(blacklist)
          && settings == (var st := if target != current then SetSetting(old(settings), DESTINATION, target.value)
                                    else old(settings);
                          if autoRun then SetSetting(st, RUNNING, "true") else st)
    {
      var current := CurrentDestination(channels);
      var target := ChosenDestination(current, supplied, invoking);
      if target.None? {
        return Refused(Error(START_TEXT_ONLY));
      }
      r := Silent;
      if target != current {
        if target.value !in embeddable {
          return Refused(MissingPermission(EMBED_LINKS));
        }
        SetDestination(target.value);
        r := Ok(DESTINATION_SET + target.value);
      }
      Start();
    }

    /** The destination subcommand: the supplied channel, otherwise the
        invoking text channel, is checked and becomes the destination. */
    method DestinationCommand(supplied: Option<string>, invoking: Option<string>, embeddable: set<string>)
      returns (r: Reply)
      requires Valid()
      modifies this
      ensures Valid()
      ensures var target := if supplied.Some? then supplied else invoking;
        if target.None? then
          r == Refused(Error(DESTINATION_TEXT_ONLY)) && unchanged(this)
        else if target.value !in embeddable then
          r == Refused(MissingPermission(EMBED_LINKS)) && unchanged(this)
        else
          destination == target && r == Ok(DESTINATION_SET + target.value) &&
          running == old(running) && blacklist == old(blacklist) &&
          settings == SetSetting(old(settings), DESTINATION, target.value)
    {
      var target := if supplied.Some? then supplied else invoking;
      if target.None? {
        return Refused(Error(DESTINATION_TEXT_ONLY));
      }
      if target.value !in embeddable {
        return Refused(MissingPermission(EMBED_LINKS));
      }
      SetDestination(target.value);
      r := Ok(DESTINATION_SET + target.value);
    }

    /** Adds a user to, or removes one from, the block-list and the store. A
        user already listed cannot be added again, nor an unlisted one
        removed: both are warnings that change nothing. */
    method Blacklist(userId: string, add: bool) returns (r: Reply)
      requires Valid()
      modifies this
      ensures Valid()
      ensures running == old(running) && destination == old(destination)
      ensures add && userId in old(blacklist) ==> r == Refused(Warning(ALREADY_LISTED)) && unchanged(this)
      ensures add && userId !in old(blacklist) ==>
        r == Ok(ADDED) && blacklist == old(blacklist) + {userId} &&
        settings == AddSetting(old(settings), BLACKLIST, userId)
      ensures !add && userId !in old(blacklist) ==> r == Refused(Warning(NOT_LISTED)) && unchanged(this)
      ensures !add && userId in old(blacklist) ==>
        r == Ok(REMOVED) && blacklist == old(blacklist) - {userId} &&
        settings == RemoveSettingValue(old(settings), BLACKLIST, userId)
    {
      if add {
        if userId in blacklist {
          return Refused(Warning(ALREADY_LISTED));
        }
        AddThenGetSettings(settings, BLACKLIST, userId);
        blacklist := blacklist + {userId};
        settings := AddSetting(settings, BLACKLIST, userId);
        r := Ok(ADDED);
      } else {
        if userId !in blacklist {
          return Refused(Warning(NOT_LISTED));
        }
        RemoveValueThenGetSettings(settings, BLACKLIST, userId);
        blacklist := blacklist - {userId};
        settings := RemoveSettingValue(settings, BLACKLIST, userId);
        r := Ok(REMOVED);
      }
    }

    /** The block-list subcommand with its action and user options. An action
        other than "add", "show" and "clear" is handled as "remove". */
    method BlacklistCommand(action: string, user: UserArg) returns (r: Reply)
      requires Valid()
      modifies this
      ensures Valid()
      ensures running == old(running) && destination == old(destination)
      ensures user.NoUser? && (action == "add" || action == "remove") ==>
        r == Refused(Error(SPECIFY_USER)) && unchanged(this)
      ensures action == "show" ==> unchanged(this)
      ensures action == "show" ==>
        r == if old(blacklist) == {} then Refused(Warning(NOBODY_LISTED)) else ShowList(old(blacklist))
      ensures action == "clear" && old(blacklist) == {} ==>
        r == Refused(Warning(ALREADY_EMPTY)) && unchanged(this)
      ensures action == "clear" && old(blacklist) != {} ==>
        r == Ok(CLEARED) && blacklist == {} && settings == RemoveSetting(old(settings), BLACKLIST)
      ensures action !in {"add", "remove", "show", "clear"} && user.NoUser? ==>
        r == Refused(Internal) && unchanged(this)
      ensures action != "show" && action != "clear" && user.NotMember? ==>
        r == Refused(Error(MEMBER_NOT_FOUND)) && unchanged(this)
      ensures action != "show" && action != "clear" && user.Member? ==>
        var add := action == "add";
        if add && user.id in old(blacklist) then r == Refused(Warning(ALREADY_LISTED)) && unchanged(this)
        else if !add && user.id !in old(blacklist) then r == Refused(Warning(NOT_LISTED)) && unchanged(this)
        else if add then
          blacklist == old(blacklist) + {user.id} && r == Ok(ADDED) &&
          settings == AddSetting(old(settings), BLACKLIST, user.id)
        else
          blacklist == old(blacklist) - {user.id} && r == Ok(REMOVED) &&
          settings == RemoveSettingValue(old(settings), BLACKLIST, user.id)
    {
      if user.NoUser? && (action == "add" || action == "remove") {
        return Refused(Error(SPECIFY_USER));
      }
      if action == "show" {
        if blacklist == {} {
          return Refused(Warning(NOBODY_LISTED));
        }
        return ShowList(blacklist);
      }
      if action == "clear" {
        if blacklist == {} {
          return Refused(Warning(ALREADY_EMPTY));
        }
        RemoveThenGetSettings(settings, BLACKLIST);
        blacklist := {};
        settings := RemoveSetting(settings, BLACKLIST);
        return Ok(CLEARED);
      }
      var add := action == "add";
      match user
      case NoUser =>
        r := Refused(Internal);
      case NotMember =>
        r := Refused(Error(MEMBER_NOT_FOUND));
      case Member(id) =>
        r := Blacklist(id, add);
    }
  }

  /** A user on the stored block-list never reaches the component's handler. */
  lemma StoredBlockedUserRejected(d: DirectComponent, userId: string)
    requires d.Valid() && userId in Values(d.settings, BLACKLIST)
    ensures forall channels :: d.Receive(userId, channels) != Handled
  {
  }
}
