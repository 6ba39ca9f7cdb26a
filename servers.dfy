/** The server entry every converter reads and writes (`nbtserver`). */
module Servers {

  /** One entry of the multiplayer server list, with the fields in the order
      the structure declares them. */
  datatype Server = Server(icon: string, ip: string, name: string, acceptTextures: bool)

  /** The entries worth keeping: those with a name and an address. */
  predicate HasRequiredFields(x: Server)
  {
    x.name != [] && x.ip != []
  }
}
