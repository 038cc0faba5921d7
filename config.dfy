/**
 * The process-wide configuration record of the feature server and the
 * store that holds it. The record has a `Server` part (where to listen and
 * which host:port to advertise in result URLs) and a `Providers` part (the
 * data-source descriptor).
 */
module Config {

  datatype Server = Server(bindHost: string, bindPort: int, urlHostPort: string)

  datatype Providers = Providers(data: string)

  datatype Configuration = Configuration(server: Server, providers: Providers)

  /** The record installed when the configuration package starts: port 8080, every string empty. */
  const Defaults := Configuration(Server("", 8080, ""), Providers(""))

  /**
   * The one mutable configuration of the process. The startup sequence
   * replaces it wholesale, overlays parts of it and writes single fields.
   */
  class ConfigStore {
    var server: Server
    var providers: Providers

    /** The record currently held. */
    function Value(): Configuration
      reads this
    {
      Configuration(server, providers)
    }

    constructor ()
      ensures Value() == Defaults
    {
      server := Defaults.server;
      providers := Defaults.providers;
    }
  }
}
