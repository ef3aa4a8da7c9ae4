/** How a command is called, shared by the leaderboard and the absentee notice: from
    a slash-command interaction, by the bot with a channel, or with neither. */
module Invocations {
  import opened Wrappers

  datatype Invocation =
    | ByInteraction(guild: string, channel: string)
    | ByChannel(guild: string, channel: string)
    | NoContext

  /** The guild and channel a command reports on: the interaction's, else the
      channel's; with neither, the command throws `Invalid <command> call`. */
  function Target(how: Invocation, command: string): (t: Result<(string, string), string>)
    ensures t.Failure? <==> how.NoContext?
    ensures t.Failure? ==> t.error == "Invalid " + command + " call"
    ensures t.Success? ==> t.value == (how.guild, how.channel)
  {
    match how
    case ByInteraction(g, c) => Success((g, c))
    case ByChannel(g, c) => Success((g, c))
    case NoContext => Failure("Invalid " + command + " call")
  }
}
