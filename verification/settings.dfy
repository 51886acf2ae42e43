/** The host's per-server settings record as the adapter reads it.
    Only the fields the adapter interpolates are kept; every one of them is an
    opaque string, since the adapter never parses or validates them. */
module Settings {

  datatype ServerConfig = ServerConfig(
    serverId: string,         // identity, used only to resolve paths
    serverName: string,       // display name
    serverIP: string,         // bind address
    serverPort: string,       // game port
    serverQueryPort: string,  // query port
    serverMaxPlayer: string,  // slot count
    serverParam: string       // operator's free-form extra launch parameters
  )
}
