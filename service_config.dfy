/**
 * Configuration of the Mongo-backed service (config/config.go): checks
 * chained in order, and an example configuration written into a loaded
 * one. A Go `error` is its message; `None` is nil.
 */
module ServiceConfig {
  import opened Common

  datatype MongoDbConfig = MongoDbConfig(connectionString: string, dbName: string) {
    function Validate(): (r: Option<string>)
      ensures r.None? <==> |connectionString| > 0
      ensures r.Some? ==> r.value == "need to supply a mongodb connection string"
    {
      if |connectionString| == 0 then Some("need to supply a mongodb connection string") else None
    }
  }

  datatype DatabaseConfig = DatabaseConfig(mongoDb: MongoDbConfig) {
    /** Passes when some backend, here the only one, MongoDB, validates. */
    function Validate(): (r: Option<string>)
      ensures r.None? <==> mongoDb.Validate().None?
      ensures r.Some? ==> r.value == "need to supply at least one database backend"
    {
      if mongoDb.Validate().None? then None else Some("need to supply at least one database backend")
    }
  }

  datatype HttpConfig = HttpConfig(address: string, port: int) {
    /** The address is checked before the port. */
    function Validate(): (r: Option<string>)
      ensures |address| == 0 ==> r == Some("need to supply a http listen address")
      ensures |address| > 0 && port == 0 ==> r == Some("need to supply a http listen port")
      ensures r.None? <==> |address| > 0 && port != 0
    {
      if |address| == 0 then Some("need to supply a http listen address")
      else if port == 0 then Some("need to supply a http listen port")
      else None
    }
  }

  datatype AdapterAttendantConfig = AdapterAttendantConfig(url: string) {
    function Validate(): (r: Option<string>)
      ensures r.None? <==> url != ""
      ensures r.Some? ==> r.value == "must supply adapter base URL"
    {
      if url == "" then Some("must supply adapter base URL") else None
    }
  }

  const ExampleDatabase := DatabaseConfig(MongoDbConfig("localhost:27017", ""))
  const ExampleHttp := HttpConfig("localhost", 8080)
  const ExampleAdapterAttendant := AdapterAttendantConfig("http://somehost:8080/rest/v0")

  /** The loaded configuration, whose sections PopulateExample overwrites in place. */
  class Config {
    var database: DatabaseConfig
    var httpConfig: HttpConfig
    var adapterAttendant: AdapterAttendantConfig

    /** The zero configuration. */
    constructor ()
      ensures database == DatabaseConfig(MongoDbConfig("", ""))
      ensures httpConfig == HttpConfig("", 0)
      ensures adapterAttendant == AdapterAttendantConfig("")
    {
      database := DatabaseConfig(MongoDbConfig("", ""));
      httpConfig := HttpConfig("", 0);
      adapterAttendant := AdapterAttendantConfig("");
    }

    /** Database, then HTTP, then adapter attendant; the first error is returned. */
    function Validate(): (r: Option<string>)
      reads this
      ensures r == FirstError([database.Validate(), httpConfig.Validate(), adapterAttendant.Validate()])
      ensures r.None? <==> |database.mongoDb.connectionString| > 0 && |httpConfig.address| > 0 && httpConfig.port != 0
                           && adapterAttendant.url != ""
    {
      var databaseErr := database.Validate();
      FirstErrorOfThree(databaseErr, httpConfig.Validate(), adapterAttendant.Validate());
      if databaseErr.Some? then databaseErr
      else
        var httpErr := httpConfig.Validate();
        if httpErr.Some? then httpErr
        else adapterAttendant.Validate()
    }

    /**
     * PopulateExample: every section is replaced by the example's, which
     * leaves the database name empty, and the result validates.
     */
    method PopulateExample()
      modifies this
      ensures database == ExampleDatabase && httpConfig == ExampleHttp && adapterAttendant == ExampleAdapterAttendant
      ensures Validate() == None
    {
      database := DatabaseConfig(MongoDbConfig("localhost:27017", ""));
      httpConfig := HttpConfig("localhost", 8080);
      adapterAttendant := AdapterAttendantConfig("http://somehost:8080/rest/v0");
    }
  }
}
