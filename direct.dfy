/** The direct-message relay. A private message from a user is held in a
    per-user session table while the user picks, through selection menus, the
    server and then the service (a direct-message listener of that server) it
    should go to; choosing the service hands the message over.

    The servers the bot knows are given as `servers`: each server id the bot
    can look up mapped to the key set of that server's direct-message handler.
    The guilds the author shares with the bot are given as `mutualGuilds`, in
    the order the platform lists them. */
module Direct {
  import opened Common

  const SERVER_MENU := "server"
  const COMPONENT_MENU := "component"
  const CANCEL_BUTTON := "x"

  const SOMETHING_WRONG := "Something went wrong"
  const NO_SERVICE := "The server does not handle any messages at the moment"
  const COULD_NOT_SEND := "Could not send to the given service, try again"

  datatype Message = Message(id: string, authorId: string, content: string)

  datatype Guild = Guild(id: string, name: string)

  /** One entry of a selection menu: the text shown and the value returned
      when it is chosen. */
  datatype MenuOption = MenuOption(text: string, value: string)

  /** What one step of the relay leads to. */
  datatype Outcome =
    | Ignored
    | ServerPrompt(options: seq<MenuOption>)
    | ComponentPrompt(options: seq<MenuOption>)
    | Delivered(serverId: string, key: string, message: Option<Message>)
    | Cancelled
    | Failed(failure: Failure)

  /** The key with its first character upper-cased and the rest unchanged. */
  function Capitalize(key: string): (r: string)
    ensures |r| == |key|
    ensures key != [] ==> r[0] == UpperChar(key[0]) && r[1..] == key[1..]
  {
    if key == [] then [] else [UpperChar(key[0])] + key[1..]
  }

  /** The value of the service option for `key` of server `serverId`. */
  function EncodeOption(serverId: string, key: string): string {
    serverId + "-" + key
  }

  /** The service option for `key` of server `serverId`. */
  function KeyOption(serverId: string, key: string): MenuOption {
    MenuOption(Capitalize(key), EncodeOption(serverId, key))
  }

  /** `s` cut at every '-': one piece more than there are dashes. */
  function SplitAll(s: string): (parts: seq<string>)
    ensures |parts| >= 1
    decreases |s|
  {
    if s == [] then [[]]
    else
      var rest := SplitAll(s[1..]);
      if s[0] == '-' then [[]] + rest
      else [[s[0]] + rest[0]] + rest[1..]
  }

  function DropTrailingEmpty(parts: seq<string>): seq<string>
    decreases |parts|
  {
    if parts != [] && parts[|parts| - 1] == [] then DropTrailingEmpty(parts[..|parts| - 1])
    else parts
  }

  /** String.split("-"): a string without a dash is returned whole; otherwise
      the pieces between dashes, trailing empty pieces removed. */
  function JavaSplit(s: string): seq<string> {
    if '-' !in s then [s] else DropTrailingEmpty(SplitAll(s))
  }

  /** The server id and key read back from a service option value: the first
      two pieces of the split, or None where indexing them would fail. */
  function DecodeOption(option: string): Option<(string, string)> {
    var parts := JavaSplit(option);
    if |parts| < 2 then None else Some((parts[0], parts[1]))
  }

  lemma {:induction false} SplitAllNoDash(s: string)
    requires '-' !in s
    ensures SplitAll(s) == [s]
    decreases |s|
  {
    if s != [] {
      assert s == [s[0]] + s[1..];
      assert '-' !in s[1..];
      SplitAllNoDash(s[1..]);
    }
  }

  /** Cutting at a dash splits the pieces between the two sides. */
  lemma {:induction false} SplitAllAtDash(a: string, b: string)
    ensures SplitAll(a + "-" + b) == SplitAll(a) + SplitAll(b)
    decreases |a|
  {
    if a == [] {
      assert a + "-" + b == "-" + b;
      assert ("-" + b)[1..] == b;
    } else {
      assert (a + "-" + b)[1..] == a[1..] + "-" + b;
      SplitAllAtDash(a[1..], b);
    }
  }

  /** Decoding gives back the server id and key of an option value when
      neither contains a dash and the key is not empty. */
  lemma DecodeEncode(serverId: string, key: string)
    requires '-' !in serverId && '-' !in key && key != []
    ensures DecodeOption(EncodeOption(serverId, key)) == Some((serverId, key))
  {
    var s := EncodeOption(serverId, key);
    assert s[|serverId|] == '-';
    SplitAllAtDash(serverId, key);
    SplitAllNoDash(serverId);
    SplitAllNoDash(key);
    assert SplitAll(s) == [serverId, key];
  }

  /** Hence the option values of distinct dash-free keys of dash-free servers
      are distinct. */
  lemma EncodeInjective(s1: string, k1: string, s2: string, k2: string)
    requires '-' !in s1 && '-' !in k1 && k1 != [] && '-' !in s2 && '-' !in k2 && k2 != []
    requires EncodeOption(s1, k1) == EncodeOption(s2, k2)
    ensures s1 == s2 && k1 == k2
  {
    DecodeEncode(s1, k1);
    DecodeEncode(s2, k2);
  }

  /** A key that contains a dash is read back cut short at its first dash. */
  lemma DecodeDashedKey(serverId: string, head: string, tail: string)
    requires '-' !in serverId && '-' !in head && '-' !in tail && tail != []
    ensures DecodeOption(EncodeOption(serverId, head + "-" + tail)) == Some((serverId, head))
  {
    var s := EncodeOption(serverId, head + "-" + tail);
    assert s == serverId + "-" + (head + "-" + tail);
    assert s[|serverId|] == '-';
    SplitAllAtDash(serverId, head + "-" + tail);
    SplitAllAtDash(head, tail);
    SplitAllNoDash(serverId);
    SplitAllNoDash(head);
    SplitAllNoDash(tail);
    assert SplitAll(s) == [serverId, head, tail];
  }

  /** `options` is the service menu of server `serverId` with keys `keys`: one
      option per key, in some order. */
  ghost predicate IsComponentMenu(serverId: string, keys: set<string>, options: seq<MenuOption>) {
    && |options| == |keys|
    && (forall k :: k in keys ==> KeyOption(serverId, k) in options)
    && (forall i :: 0 <= i < |options| ==> IsKeyOption(serverId, keys, options[i]))
  }

  /** `o` is the service option of one of `keys`. */
  ghost predicate IsKeyOption(serverId: string, keys: set<string>, o: MenuOption) {
    exists k :: k in keys && o == KeyOption(serverId, k)
  }

  /** Adding the option of a new key to the menu of `done` gives the menu of
      `done + {k}`. */
  lemma ExtendMenu(serverId: string, done: set<string>, k: string, options: seq<MenuOption>)
    requires IsComponentMenu(serverId, done, options) && k !in done
    ensures IsComponentMenu(serverId, done + {k}, options + [KeyOption(serverId, k)])
  {
    var next := options + [KeyOption(serverId, k)];
    forall i | 0 <= i < |next|
      ensures IsKeyOption(serverId, done + {k}, next[i])
    {
      if i < |options| {
        assert IsKeyOption(serverId, done, options[i]);
        var k' :| k' in done && options[i] == KeyOption(serverId, k');
        assert next[i] == KeyOption(serverId, k');
      } else {
        assert next[i] == KeyOption(serverId, k);
      }
    }
  }

  /** The effect of showing the service menu of `serverId` to `userId`, from
      session table `before` to `after`: an unknown server is an error; a
      server with no service ends the session with a warning; an empty key
      fails while the label is built; otherwise the menu is shown. */
  ghost predicate ComponentMenuStep(before: map<string, Message>, after: map<string, Message>,
                                    userId: string, serverId: string,
                                    servers: map<string, set<string>>, r: Outcome) {
    if serverId !in servers then
      r == Failed(Error(SOMETHING_WRONG)) && after == before
    else if servers[serverId] == {} then
      r == Failed(Warning(NO_SERVICE)) && after == before - {userId}
    else if "" in servers[serverId] then
      r == Failed(Internal) && after == before
    else
      after == before && r.ComponentPrompt? && IsComponentMenu(serverId, servers[serverId], r.options)
  }

  /** The effect of choosing option `option` in the service menu. The
      session is removed once the value has been split, before the server and
      the key are checked. */
  ghost predicate ChooseComponentStep(before: map<string, Message>, after: map<string, Message>,
                                      userId: string, option: string,
                                      servers: map<string, set<string>>, r: Outcome) {
    match DecodeOption(option)
    case None => r == Failed(Internal) && after == before
    case Some((serverId, key)) =>
      && after == before - {userId}
      && r == (if serverId !in servers then Failed(Error(SOMETHING_WRONG))
               else if key !in servers[serverId] then Failed(Error(COULD_NOT_SEND))
               else Delivered(serverId, key, if userId in before then Some(before[userId]) else None))
  }

  /** The error reply sent for a failure escaping the relay's worker: the
      bot's own failure kinds are answered, anything else is not. */
  function UncaughtReply(f: Failure): (reply: Option<Failure>)
    ensures reply.Some? <==> IsBotException(f)
    ensures reply.Some? ==> reply.value == f
  {
    if IsBotException(f) then Some(f) else None
  }

  class Direct {
    /** The pending session of each user: the message waiting to be routed. */
    var cache: map<string, Message>

    /** Every pending message is filed under its author. */
    ghost predicate Valid()
      reads this
    {
      forall u :: u in cache ==> cache[u].authorId == u
    }

    constructor ()
      ensures Valid() && cache == map[]
    {
      cache := map[];
    }

    /** The server menu: one option per mutual guild, labelled with its name
        and valued with its id, in the platform's order. */
    static method ServerOptions(guilds: seq<Guild>) returns (options: seq<MenuOption>)
      ensures |options| == |guilds|
      ensures forall i :: 0 <= i < |guilds| ==> options[i] == MenuOption(guilds[i].name, guilds[i].id)
    {
      options := [];
      var i := 0;
      while i < |guilds|
        invariant 0 <= i <= |guilds|
        invariant |options| == i
        invariant forall j :: 0 <= j < i ==> options[j] == MenuOption(guilds[j].name, guilds[j].id)
      {
        options := options + [MenuOption(guilds[i].name, guilds[i].id)];
        i := i + 1;
      }
    }

    /** The service menu of a server: one option per key. */
    static method ComponentOptions(serverId: string, keys: set<string>) returns (options: seq<MenuOption>)
      ensures IsComponentMenu(serverId, keys, options)
    {
      options := [];
      var left := keys;
      ghost var done: set<string> := {};
      while left != {}
        invariant left + done == keys && left !! done
        invariant IsComponentMenu(serverId, done, options)
        decreases left
      {
        var k :| k in left;
        ExtendMenu(serverId, done, k, options);
        options := options + [KeyOption(serverId, k)];
        left := left - {k};
        done := done + {k};
      }
    }

    /** Shows the service menu of `serverId` to `userId`. */
    method SendComponentMenu(userId: string, serverId: string, servers: map<string, set<string>>)
      returns (r: Outcome)
      requires Valid()
      modifies this
      ensures Valid()
      ensures ComponentMenuStep(old(cache), cache, userId, serverId, servers, r)
    {
      if serverId !in servers {
        return Failed(Error(SOMETHING_WRONG));
      }
      var keys := servers[serverId];
      if keys == {} {
        cache := cache - {userId};
        return Failed(Warning(NO_SERVICE));
      }
      if "" in keys {
        return Failed(Internal);
      }
      var options := ComponentOptions(serverId, keys);
      r := ComponentPrompt(options);
    }

    /** A private message arrives. Without a mutual guild, or while its author
        has a pending session, it is dropped. Otherwise it is held under its
        author; with one mutual guild the service menu of that guild follows,
        with more the server menu. */
    method ReceiveMessage(message: Message, mutualGuilds: seq<Guild>, servers: map<string, set<string>>)
      returns (r: Outcome)
      requires Valid()
      modifies this
      ensures Valid()
      ensures |mutualGuilds| == 0 || message.authorId in old(cache) ==>
        r == Ignored && cache == old(cache)
      ensures |mutualGuilds| == 1 && message.authorId !in old(cache) ==>
        ComponentMenuStep(old(cache)[message.authorId := message], cache,
                          message.authorId, mutualGuilds[0].id, servers, r)
      ensures |mutualGuilds| > 1 && message.authorId !in old(cache) ==>
        && cache == old(cache)[message.authorId := message]
        && r.ServerPrompt? && |r.options| == |mutualGuilds|
        && (forall i :: 0 <= i < |mutualGuilds| ==>
              r.options[i] == MenuOption(mutualGuilds[i].name, mutualGuilds[i].id))
    {
      var userId := message.authorId;
      if |mutualGuilds| == 0 || userId in cache {
        return Ignored;
      }
      cache := cache[userId := message];
      if |mutualGuilds| == 1 {
        r := SendComponentMenu(userId, mutualGuilds[0].id, servers);
        return;
      }
      var options := ServerOptions(mutualGuilds);
      r := ServerPrompt(options);
    }

    /** A choice in one of the relay's selection menus. */
    method SelectMenu(userId: string, menuId: string, option: string, servers: map<string, set<string>>)
      returns (r: Outcome)
      requires Valid()
      modifies this
      ensures Valid()
      ensures menuId == COMPONENT_MENU ==> ChooseComponentStep(old(cache), cache, userId, option, servers, r)
      ensures menuId == SERVER_MENU ==> ComponentMenuStep(old(cache), cache, userId, option, servers, r)
      ensures menuId != COMPONENT_MENU && menuId != SERVER_MENU ==> r == Ignored && cache == old(cache)
    {
      if menuId == COMPONENT_MENU {
        var parts := JavaSplit(option);
        if |parts| < 2 {
          return Failed(Internal);
        }
        var serverId, key := parts[0], parts[1];
        var userMessage := if userId in cache then Some(cache[userId]) else None;
        cache := cache - {userId};
        if serverId !in servers {
          return Failed(Error(SOMETHING_WRONG));
        }
        if key !in servers[serverId] {
          return Failed(Error(COULD_NOT_SEND));
        }
        r := Delivered(serverId, key, userMessage);
      } else if menuId == SERVER_MENU {
        r := SendComponentMenu(userId, option, servers);
      } else {
        r := Ignored;
      }
    }

    /** The cancel button ends the clicking user's session. */
    method ClickButton(userId: string, buttonId: string) returns (r: Outcome)
      requires Valid()
      modifies this
      ensures Valid()
      ensures buttonId == CANCEL_BUTTON ==> r == Cancelled && cache == old(cache) - {userId}
      ensures buttonId != CANCEL_BUTTON ==> r == Ignored && cache == old(cache)
    {
      if buttonId == CANCEL_BUTTON {
        cache := cache - {userId};
        r := Cancelled;
      } else {
        r := Ignored;
      }
    }
  }

  /** A delivered message is the one its chooser sent: under the table's
      invariant the message handed over was written by the user who chose. */
  lemma DeliveredMessageIsChoosers(before: map<string, Message>, after: map<string, Message>,
                                   userId: string, option: string,
                                   servers: map<string, set<string>>, r: Outcome)
    requires forall u :: u in before ==> before[u].authorId == u
    requires ChooseComponentStep(before, after, userId, option, servers, r)
    requires r.Delivered? && r.message.Some?
    ensures r.message.value.authorId == userId && userId !in after
  {
  }

  /** No step files a session under anyone but the user it concerns. */
  lemma StepsTouchOnlyTheirUser(before: map<string, Message>, after: map<string, Message>,
                                userId: string, serverId: string,
                                servers: map<string, set<string>>, r: Outcome)
    requires ComponentMenuStep(before, after, userId, serverId, servers, r)
    ensures forall u :: u != userId ==> (u in after <==> u in before)
    ensures forall u :: u != userId && u in after ==> after[u] == before[u]
  {
  }

  /** With exactly one service key the service menu holds exactly that key's
      option. */
  lemma SingleKeyMenu(serverId: string, key: string, options: seq<MenuOption>)
    requires IsComponentMenu(serverId, {key}, options)
    ensures options == [KeyOption(serverId, key)]
  {
  }

  /** A user with one mutual server that has the single service "feedback"
      gets its service menu; choosing the one option delivers the original
      message and ends the session. */
  method ScenarioOneServer() returns (first: Outcome, second: Outcome, pending: bool)
    ensures first == ComponentPrompt([MenuOption("Feedback", "T-feedback")])
    ensures second == Delivered("T", "feedback", Some(Message("m1", "U", "hello")))
    ensures !pending
  {
    var relay := new Direct();
    var hello := Message("m1", "U", "hello");
    var servers := map["T" := {"feedback"}];
    first := relay.ReceiveMessage(hello, [Guild("T", "Tenant")], servers);
    SingleKeyMenu("T", "feedback", first.options);
    assert Capitalize("feedback") == "Feedback";
    assert EncodeOption("T", "feedback") == "T-feedback";
    DecodeEncode("T", "feedback");
    second := relay.SelectMenu("U", COMPONENT_MENU, first.options[0].value, servers);
    pending := "U" in relay.cache;
  }

  /** A user sharing two servers gets the server menu; a second message sent
      before choosing is dropped and the first stays pending. */
  method ScenarioTwoServers() returns (first: Outcome, second: Outcome, held: Option<Message>)
    ensures first == ServerPrompt([MenuOption("One", "T1"), MenuOption("Two", "T2")])
    ensures second == Ignored
    ensures held == Some(Message("m1", "U", "hello"))
  {
    var relay := new Direct();
    var guilds := [Guild("T1", "One"), Guild("T2", "Two")];
    var servers := map["T1" := {"feedback"}, "T2" := {"modmail"}];
    first := relay.ReceiveMessage(Message("m1", "U", "hello"), guilds, servers);
    second := relay.ReceiveMessage(Message("m2", "U", "again"), guilds, servers);
    held := if "U" in relay.cache then Some(relay.cache["U"]) else None;
  }
}
