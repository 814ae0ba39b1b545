/** The simulator's settings records: `SettingsBase` holds the IoT Hub
    connection string and derives the identifiers from it on every read;
    `DeviceSettings` and `ModuleSettings` add the artifact id and the
    simulation switches. */
module Settings {
  import opened Outcomes
  import opened Text
  import opened ConnectionStrings

  /** The simulation switches and periods (seconds) read from
      configuration (SimulationSettingsBase and SimulationSettingsDevice). */
  datatype SimulationSettings = SimulationSettings(
    enableTelemetryMessages: bool,
    telemetryFrecuency: Int32,
    enableErrorMessages: bool,
    errorFrecuency: Int32,
    enableCommissioningMessages: bool,
    commissioningFrecuency: Int32,
    enableLatencyTests: bool,
    latencyTestsFrecuency: Int32,
    enableFileUpload: bool,
    numberOfMessagesToUpload: Int32)

  /** A field of a non-empty connection string, for a key without ';'
      (all the keys the getters use), and "" for an empty one. */
  function Field(connectionString: string, key: string): (r: string)
    requires ';' !in key
    ensures |connectionString| == 0 ==> r == ""
    ensures |connectionString| > 0 ==> ExtractValue(connectionString, key) == Success(r)
    ensures ';' !in r
  {
    if |connectionString| == 0 then "" else ExtractValue(connectionString, key).value
  }

  /** SettingsBase.DeviceId. */
  function DeviceIdOf(connectionString: string): (r: string)
    ensures |connectionString| == 0 ==> r == ""
    ensures |connectionString| > 0 ==> ExtractValue(connectionString, "DeviceId") == Success(r)
  {
    Field(connectionString, "DeviceId")
  }

  /** SettingsBase.HostName. */
  function HostNameOf(connectionString: string): (r: string)
    ensures |connectionString| == 0 ==> r == ""
    ensures |connectionString| > 0 ==> ExtractValue(connectionString, "HostName") == Success(r)
  {
    Field(connectionString, "HostName")
  }

  /** ModuleSettings.ModuleId. */
  function ModuleIdOf(connectionString: string): (r: string)
    ensures |connectionString| == 0 ==> r == ""
    ensures |connectionString| > 0 ==> ExtractValue(connectionString, "ModuleId") == Success(r)
  {
    Field(connectionString, "ModuleId")
  }

  /** ModuleSettings.ArtifactId: "<DeviceId>/<ModuleId>" for a non-empty
      connection string, "" otherwise. The '/' is there even when both ids
      are empty, and it is the first '/' whenever the device id has none,
      so both ids can be read back from it. */
  function ModuleArtifactIdOf(connectionString: string): (r: string)
    ensures |connectionString| == 0 ==> r == ""
    ensures |connectionString| > 0 ==>
              |r| == |DeviceIdOf(connectionString)| + 1 + |ModuleIdOf(connectionString)| &&
              '/' in r &&
              r[..|DeviceIdOf(connectionString)|] == DeviceIdOf(connectionString) &&
              r[|DeviceIdOf(connectionString)|] == '/' &&
              r[|DeviceIdOf(connectionString)| + 1..] == ModuleIdOf(connectionString)
  {
    if |connectionString| == 0 then ""
    else DeviceIdOf(connectionString) + "/" + ModuleIdOf(connectionString)
  }

  /** DeviceSettings.ArtifactId: the device id itself, never with a '/'
      added. */
  function DeviceArtifactIdOf(connectionString: string): (r: string)
    ensures r == DeviceIdOf(connectionString)
    ensures |connectionString| == 0 ==> r == ""
  {
    DeviceIdOf(connectionString)
  }

  /** DeviceSettings: the stored connection string and simulation switches;
      every identifier is a getter over the connection string. */
  datatype DeviceSettings = DeviceSettings(connectionString: string, simulationSettings: SimulationSettings) {
    function DeviceId(): string { DeviceIdOf(connectionString) }
    function HostName(): string { HostNameOf(connectionString) }
    function ArtifactId(): string { DeviceArtifactIdOf(connectionString) }
  }

  /** ModuleSettings. */
  datatype ModuleSettings = ModuleSettings(connectionString: string, simulationSettings: SimulationSettings) {
    function DeviceId(): string { DeviceIdOf(connectionString) }
    function HostName(): string { HostNameOf(connectionString) }
    function ModuleId(): string { ModuleIdOf(connectionString) }
    function ArtifactId(): string { ModuleArtifactIdOf(connectionString) }
  }

  /** The getters are recomputed on every read: after the connection string
      is reassigned they give the new string's fields, and the simulation
      settings keep the value last set. */
  lemma ModuleGettersFollowConnectionString(s: ModuleSettings, c: string)
    ensures var t := s.(connectionString := c);
            t.DeviceId() == DeviceIdOf(c) && t.HostName() == HostNameOf(c) &&
            t.ModuleId() == ModuleIdOf(c) && t.ArtifactId() == ModuleArtifactIdOf(c) &&
            t.simulationSettings == s.simulationSettings
  {
  }

  lemma DeviceGettersFollowConnectionString(s: DeviceSettings, c: string)
    ensures var t := s.(connectionString := c);
            t.DeviceId() == DeviceIdOf(c) && t.HostName() == HostNameOf(c) &&
            t.ArtifactId() == t.DeviceId() &&
            t.simulationSettings == s.simulationSettings
  {
  }

  /** When the device id has no '/', the device and module ids are the
      text before and after the first '/' of the module artifact id. */
  lemma {:induction false} ModuleArtifactIdSplits(connectionString: string)
    requires |connectionString| > 0 && '/' !in DeviceIdOf(connectionString)
    ensures var a := ModuleArtifactIdOf(connectionString);
            IndexOf(a, "/") == Some(|DeviceIdOf(connectionString)|) &&
            a[..|DeviceIdOf(connectionString)|] == DeviceIdOf(connectionString) &&
            a[|DeviceIdOf(connectionString)| + 1..] == ModuleIdOf(connectionString)
  {
    var a := ModuleArtifactIdOf(connectionString);
    var d := DeviceIdOf(connectionString);
    OccursAtChar(a, '/', |d|);
    forall j: nat | j < |d| ensures !OccursAt(a, "/", j) {
      OccursAtChar(a, '/', j);
      assert a[j] == d[j];
    }
    FirstOccurrence(a, "/", |d|);
  }
}
