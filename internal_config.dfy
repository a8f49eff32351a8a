/**
 * Configuration checks of the MariaDB-backed service
 * (internal/config/config.go). A Go `error` is its message; `None` is nil.
 */
module InternalConfig {
  import opened Common

  datatype DatabaseConfig = DatabaseConfig(host: string, port: int, user: string, password: string, database: string) {
    /**
     * DatabaseConfig.Validate never fails: for an empty host it builds an
     * error and drops it.
     */
    function Validate(): (r: Option<string>)
      ensures r == None
    {
      None
    }

    /** What the check evidently intends: an empty host is refused. */
    function ValidateIntended(): (r: Option<string>)
      ensures r.None? <==> host != ""
      ensures r.Some? ==> r.value == "must supply database host"
    {
      if host == "" then Some("must supply database host") else None
    }
  }

  datatype EventConfig = EventConfig(deviceUpdatesTopic: string, connectionString: string) {
    /** The topic is checked before the connection string. */
    function Validate(): (r: Option<string>)
      ensures deviceUpdatesTopic == "" ==> r == Some("must supply event device updates topic")
      ensures deviceUpdatesTopic != "" && connectionString == "" ==> r == Some("must supply event connection string")
      ensures r.None? <==> deviceUpdatesTopic != "" && connectionString != ""
    {
      if deviceUpdatesTopic == "" then Some("must supply event device updates topic")
      else if connectionString == "" then Some("must supply event connection string")
      else None
    }
  }

  datatype AdapterAttendantConfig = AdapterAttendantConfig(url: string) {
    function Validate(): (r: Option<string>)
      ensures r.None? <==> url != ""
      ensures r.Some? ==> r.value == "must supply adapter base URL"
    {
      if url == "" then Some("must supply adapter base URL") else None
    }
  }

  datatype Config = Config(database: DatabaseConfig, adapterAttendant: AdapterAttendantConfig, purgeDb: bool,
                           event: EventConfig) {
    /** Database, then adapter attendant, then event; the first error is returned. */
    function Validate(): (r: Option<string>)
      ensures r == FirstError([database.Validate(), adapterAttendant.Validate(), event.Validate()])
    {
      var databaseErr := database.Validate();
      FirstErrorOfThree(databaseErr, adapterAttendant.Validate(), event.Validate());
      if databaseErr.Some? then databaseErr
      else
        var attendantErr := adapterAttendant.Validate();
        if attendantErr.Some? then attendantErr
        else event.Validate()
    }

    /** Config.Validate with the intended database check in place of the one written. */
    function ValidateIntended(): (r: Option<string>)
      ensures r == FirstError([database.ValidateIntended(), adapterAttendant.Validate(), event.Validate()])
    {
      var databaseErr := database.ValidateIntended();
      FirstErrorOfThree(databaseErr, adapterAttendant.Validate(), event.Validate());
      if databaseErr.Some? then databaseErr
      else
        var attendantErr := adapterAttendant.Validate();
        if attendantErr.Some? then attendantErr
        else event.Validate()
    }
  }

  /**
   * A configuration is accepted exactly when the adapter URL, the event
   * topic and the event connection string are all given; the database
   * section, even an empty host, plays no part.
   */
  lemma ConfigAccepted(c: Config)
    ensures c.Validate().None? <==> c.adapterAttendant.url != "" && c.event.deviceUpdatesTopic != "" && c.event.connectionString != ""
    ensures c.adapterAttendant.url == "" ==> c.Validate() == Some("must supply adapter base URL")
  {
    var checks := [c.database.Validate(), c.adapterAttendant.Validate(), c.event.Validate()];
    assert checks[0].None?;
  }

  /** As written, a configuration without a database host passes validation. */
  lemma EmptyHostAccepted(c: Config)
    requires c.adapterAttendant.url != "" && c.event.deviceUpdatesTopic != "" && c.event.connectionString != ""
    ensures c.database.host == "" ==> c.Validate() == None
    ensures c.database.host == "" ==> c.ValidateIntended() == Some("must supply database host")
  {
    ConfigAccepted(c);
  }

  /**
   * With the intended database check, a configuration is accepted exactly
   * when the host, the adapter URL, the event topic and the event
   * connection string are all given, and a missing host is reported first.
   */
  lemma IntendedConfigAccepted(c: Config)
    ensures c.ValidateIntended().None? <==>
              c.database.host != "" && c.adapterAttendant.url != "" && c.event.deviceUpdatesTopic != ""
              && c.event.connectionString != ""
    ensures c.database.host == "" ==> c.ValidateIntended() == Some("must supply database host")
  {
    var checks := [c.database.ValidateIntended(), c.adapterAttendant.Validate(), c.event.Validate()];
    assert checks[0].None? <==> c.database.host != "";
  }
}
