/** The chat-platform entities the bot handles. Guilds are identified by
    their numeric id; channels and users carry their id and the mention
    token the platform renders for them (the platform compares both kinds of
    object by id, and the token is a function of the id). */
module Entities {

  type Guild = nat

  datatype Channel = Channel(id: nat, mention: string)

  datatype User = User(id: nat, mention: string)

  type Url = string

  type Keyword = string
}
