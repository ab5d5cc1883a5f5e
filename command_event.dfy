/** A typed command invocation: the command name, an optional subcommand, the
    named option values, and the guild and channel it came from. All fields are
    final, so the event is a value. */
module CommandEvent {
  import opened Common

  /** Option values are kept as their string form; guild and channel by id.
      `command` is optional because `ToSub` of an event without a subcommand
      carries a null command. */
  datatype CommandEvent = CommandEvent(
    command: Option<string>,
    subcommand: Option<string>,
    args: map<string, string>,
    guild: string,
    channel: string)

  /** The event seen by a subcommand's handler: the subcommand becomes the
      command, there is no further subcommand, and the arguments, guild and
      channel are shared with the original event. */
  function ToSub(e: CommandEvent): (r: CommandEvent)
    ensures r.command == e.subcommand
    ensures r.subcommand == None
    ensures r.args == e.args && r.guild == e.guild && r.channel == e.channel
  {
    CommandEvent(e.subcommand, None, e.args, e.guild, e.channel)
  }

  /** Two events give the same sub-event exactly when they agree on everything
      except the command name: `ToSub` forgets the command and nothing else. */
  lemma ToSubForgetsOnlyCommand(e1: CommandEvent, e2: CommandEvent)
    ensures ToSub(e1) == ToSub(e2) <==>
      (e1.subcommand == e2.subcommand && e1.args == e2.args &&
       e1.guild == e2.guild && e1.channel == e2.channel)
  {
  }

  /** Replacing the command name of an event does not change its sub-event. */
  lemma ToSubIgnoresCommand(e: CommandEvent, name: Option<string>)
    ensures ToSub(e.(command := name)) == ToSub(e)
  {
  }

  /** Descending twice leaves neither a command nor a subcommand. */
  lemma ToSubTwice(e: CommandEvent)
    ensures ToSub(ToSub(e)).command == None && ToSub(ToSub(e)).subcommand == None
    ensures ToSub(ToSub(e)).args == e.args
  {
  }
}
