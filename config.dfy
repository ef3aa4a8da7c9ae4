/** The bot's configuration values that the modelled code reads. */
module Config {

  datatype Settings = Settings(
    /** `footerMessage`: an italic line under the summary and the absentee notice;
        empty means none. */
    footerMessage: string,
    /** `userToNameMap`: display names by user name. */
    userToName: map<string, string>,
    /** `insultUserName`: the player singled out when they are the last one left. */
    insultUserName: string,
    /** `insultUserId`: that player's id, which the generated message mentions. */
    insultUserId: string,
    /** `ollama.generateMessages`: whether a language model writes the absentee message. */
    generationEnabled: bool,
    /** `autoPostSummaryChannel`: the channel of the daily summary; empty means none. */
    autoPostChannel: string)

  /** `USER_TO_NAME_MAP[user] || user`: the mapped name unless it is missing or
      empty. */
  function DisplayName(settings: Settings, user: string): (name: string)
    ensures user in settings.userToName && settings.userToName[user] != [] ==>
      name == settings.userToName[user]
    ensures (user !in settings.userToName || settings.userToName[user] == []) ==> name == user
    ensures user != [] ==> name != []
  {
    if user in settings.userToName && settings.userToName[user] != [] then settings.userToName[user]
    else user
  }
}
