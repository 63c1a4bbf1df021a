/**
 * The profile checker: it asks the camera's device service which services
 * it offers (GetServices, or GetCapabilities on older firmware) and decides
 * which ONVIF profiles are supported from the service namespaces found.
 * The SOAP calls are not modelled: the checker receives what connecting and
 * each call returned or raised.
 */
module Profiles {

  import opened Wrappers
  import opened Text

  /** One row of the profile table: what the UI shows and the service namespaces the profile needs. */
  datatype ProfileDefinition = ProfileDefinition(name: string, desc: string, required: seq<string>, color: string)

  const MediaNs := "http://www.onvif.org/ver10/media/wsdl"
  const Media2Ns := "http://www.onvif.org/ver20/media/wsdl"
  const RecordingNs := "http://www.onvif.org/ver10/recording/wsdl"
  const SearchNs := "http://www.onvif.org/ver10/search/wsdl"
  const ReplayNs := "http://www.onvif.org/ver10/replay/wsdl"
  const AccessControlNs := "http://www.onvif.org/ver10/accesscontrol/wsdl"
  const CredentialNs := "http://www.onvif.org/ver10/credential/wsdl"
  const DisplayNs := "http://www.onvif.org/ver10/display/wsdl"
  const AnalyticsNs := "http://www.onvif.org/ver20/analytics/wsdl"
  const ProvisioningNs := "http://www.onvif.org/ver10/provisioning/wsdl"
  const PtzNs := "http://www.onvif.org/ver20/ptz/wsdl"
  const ImagingNs := "http://www.onvif.org/ver20/imaging/wsdl"
  const EventsNs := "http://www.onvif.org/ver10/events/wsdl"
  const DeviceIONs := "http://www.onvif.org/ver10/deviceIO/wsdl"

  /** The profiles, by key, with the namespaces each requires. */
  const ProfileDefinitions: map<string, ProfileDefinition> := map[
    "S" := ProfileDefinition("Profile S", "Video/audio streaming", [MediaNs], "primary"),
    "T" := ProfileDefinition("Profile T", "Advanced streaming (H.264/H.265, metadata)", [Media2Ns], "info"),
    "G" := ProfileDefinition("Profile G", "Recording, storage, and retrieval", [RecordingNs, SearchNs, ReplayNs], "success"),
    "C" := ProfileDefinition("Profile C", "Physical access control", [AccessControlNs], "warning"),
    "A" := ProfileDefinition("Profile A", "Advanced access control with credentials", [AccessControlNs, CredentialNs], "orange"),
    "D" := ProfileDefinition("Profile D", "Video display output", [DisplayNs], "secondary"),
    "M" := ProfileDefinition("Profile M", "Metadata and analytics streaming", [Media2Ns, AnalyticsNs], "danger"),
    "Q" := ProfileDefinition("Profile Q", "Quick install and provisioning", [ProvisioningNs], "dark")]

  /** One discovered service, as the checker reports it. */
  datatype Service = Service(namespace: string, xaddr: string, version: Option<string>)

  // ---- profile decision ---------------------------------------------------

  /** The set of namespaces among the services. */
  function Namespaces(services: seq<Service>): (r: set<string>)
    ensures forall ns :: ns in r <==> exists i :: 0 <= i < |services| && services[i].namespace == ns
  {
    set i | 0 <= i < |services| :: services[i].namespace
  }

  lemma NamespacesAppend(a: seq<Service>, b: seq<Service>)
    ensures Namespaces(a + b) == Namespaces(a) + Namespaces(b)
  {
    forall ns ensures ns in Namespaces(a + b) <==> ns in Namespaces(a) + Namespaces(b) {
      if ns in Namespaces(a + b) {
        var i :| 0 <= i < |a + b| && (a + b)[i].namespace == ns;
        if i >= |a| {
          assert b[i - |a|].namespace == ns;
        }
      }
      if ns in Namespaces(a) {
        var i :| 0 <= i < |a| && a[i].namespace == ns;
        assert (a + b)[i].namespace == ns;
      }
      if ns in Namespaces(b) {
        var i :| 0 <= i < |b| && b[i].namespace == ns;
        assert (a + b)[|a| + i].namespace == ns;
      }
    }
  }

  lemma NamespacesSmall(x: Service)
    ensures Namespaces([]) == {}
    ensures Namespaces([x]) == {x.namespace}
  {
    assert [x][0].namespace == x.namespace;
  }

  /** Every required namespace is offered. */
  predicate AllOffered(required: seq<string>, offered: set<string>) {
    forall i :: 0 <= i < |required| ==> required[i] in offered
  }

  /** The supported flag of every profile. */
  function ProfileSupport(services: seq<Service>): (r: map<string, bool>)
    ensures r.Keys == ProfileDefinitions.Keys
  {
    var offered := Namespaces(services);
    map key | key in ProfileDefinitions :: AllOffered(ProfileDefinitions[key].required, offered)
  }

  /** A profile is supported exactly when each namespace it requires belongs to some discovered service. */
  lemma SupportedIff(services: seq<Service>, key: string)
    requires key in ProfileDefinitions
    ensures ProfileSupport(services)[key] <==>
      forall i :: 0 <= i < |ProfileDefinitions[key].required| ==>
        exists j :: 0 <= j < |services| && services[j].namespace == ProfileDefinitions[key].required[i]
  {
    var offered := Namespaces(services);
    var required := ProfileDefinitions[key].required;
    assert ProfileSupport(services)[key] == AllOffered(required, offered);
    if ProfileSupport(services)[key] {
      forall i | 0 <= i < |required|
        ensures exists j :: 0 <= j < |services| && services[j].namespace == required[i]
      {
        assert required[i] in offered;
      }
    } else {
      var i :| 0 <= i < |required| && required[i] !in offered;
      assert !exists j :: 0 <= j < |services| && services[j].namespace == required[i];
    }
  }

  /** No profile has an empty requirement, so a camera offering nothing supports nothing. */
  lemma NothingOfferedNothingSupported(key: string)
    requires key in ProfileDefinitions
    ensures |ProfileDefinitions[key].required| >= 1
    ensures !ProfileSupport([])[key]
  {
    assert ProfileDefinitions[key].required[0] !in Namespaces([]);
  }

  /** Profile A needs everything Profile C needs, and Profile M everything Profile T needs. */
  lemma ProfileImplications(services: seq<Service>)
    ensures ProfileSupport(services)["A"] ==> ProfileSupport(services)["C"]
    ensures ProfileSupport(services)["M"] ==> ProfileSupport(services)["T"]
  {
    var offered := Namespaces(services);
    if ProfileSupport(services)["A"] {
      assert ProfileDefinitions["A"].required[0] in offered;
    }
    if ProfileSupport(services)["M"] {
      assert ProfileDefinitions["M"].required[0] in offered;
    }
  }

  // ---- GetServices --------------------------------------------------------

  /**
   * A `Major` or `Minor` field of a GetServices `Version`: an attribute the
   * object does not have, one that is present but null (zeep's non-strict
   * parsing leaves a missing child element as `None`), or a number.
   */
  datatype VersionPart = Missing | Null | Number(n: int)

  /** The `Version` of a GetServices record. */
  datatype Version = Version(major: VersionPart, minor: VersionPart)

  /** One record of the GetServices response; `None` stands for an absent or null field. */
  datatype ServiceRecord = ServiceRecord(namespace: Option<string>, xAddr: Option<string>, version: Option<Version>)

  /** One part as the f-string writes it: `getattr`'s "" default when the attribute is missing, `str(None)` when it is null, `str(n)` for a number. */
  function PartText(p: VersionPart): (r: string)
    ensures '.' !in r
    ensures p.Missing? <==> r == ""
    ensures p.Null? ==> r == "None"
    ensures p.Number? ==> ReadIntText(r) == Some(p.n)
  {
    match p
    case Missing => ""
    case Null => "None"
    case Number(n) =>
      IntTextReads(n);
      var t := IntText(n);
      var digits := NatText(if n < 0 then -n else n);
      assert t == (if n < 0 then "-" + digits else digits);
      assert forall i :: 0 <= i < |t| ==> t[i] == '-' || IsDigit(t[i]);
      t
  }

  /** `f"{maj}.{minor}"`: the text splits at its one `.` into the two parts' texts. */
  function VersionText(v: Version): (r: string)
    ensures Split(r, '.') == [PartText(v.major), PartText(v.minor)]
  {
    var major := PartText(v.major);
    var minor := PartText(v.minor);
    SplitAppend(major, minor, '.');
    SplitNoSep(major, '.');
    SplitNoSep(minor, '.');
    major + "." + minor
  }

  /** The service a record describes, if its namespace is present and non-empty. */
  function RecordService(rec: ServiceRecord): (r: Option<Service>)
    ensures r.Some? <==> rec.namespace.Some? && rec.namespace.value != ""
    ensures r.Some? ==> r.value.namespace == rec.namespace.value
    ensures r.Some? ==> r.value.xaddr == (if rec.xAddr.Some? then rec.xAddr.value else "")
    ensures r.Some? ==> (r.value.version.Some? <==> rec.version.Some?)
    ensures r.Some? && rec.version.Some? ==> r.value.version == Some(VersionText(rec.version.value))
  {
    if rec.namespace.Some? && rec.namespace.value != "" then
      Some(Service(rec.namespace.value,
                   if rec.xAddr.Some? then rec.xAddr.value else "",
                   if rec.version.Some? then Some(VersionText(rec.version.value)) else None))
    else None
  }

  /** The services of a GetServices response, in response order. */
  function ServicesFromRecords(records: seq<ServiceRecord>): (r: seq<Service>)
    ensures |r| <= |records|
    ensures forall i :: 0 <= i < |r| ==> r[i].namespace != ""
  {
    if records == [] then []
    else
      var s := RecordService(records[|records| - 1]);
      ServicesFromRecords(records[..|records| - 1]) + (if s.Some? then [s.value] else [])
  }

  /** Records without a namespace are dropped, none is invented: the namespaces found are those of the records that have one. */
  lemma {:induction false} RecordNamespaces(records: seq<ServiceRecord>)
    ensures |ServicesFromRecords(records)| <= |records|
    ensures forall ns :: ns in Namespaces(ServicesFromRecords(records)) <==>
      ns != "" && exists i :: 0 <= i < |records| && records[i].namespace == Some(ns)
  {
    if records != [] {
      var init := records[..|records| - 1];
      RecordNamespaces(init);
      var last := records[|records| - 1];
      var s := RecordService(last);
      var part := if s.Some? then [s.value] else [];
      assert ServicesFromRecords(records) == ServicesFromRecords(init) + part;
      NamespacesAppend(ServicesFromRecords(init), part);
      var earlier := Namespaces(ServicesFromRecords(init));
      if s.Some? { NamespacesSmall(s.value); } else { NamespacesSmall(Service("", "", None)); }
      forall ns ensures ns in Namespaces(ServicesFromRecords(records)) <==>
        ns != "" && exists i :: 0 <= i < |records| && records[i].namespace == Some(ns)
      {
        if ns in earlier {
          var i :| 0 <= i < |init| && init[i].namespace == Some(ns);
          assert records[i] == init[i];
        } else if ns in Namespaces(part) {
          assert records[|records| - 1].namespace == Some(ns);
        }
        if ns != "" && exists i :: 0 <= i < |records| && records[i].namespace == Some(ns) {
          var i :| 0 <= i < |records| && records[i].namespace == Some(ns);
          if i < |init| {
            assert init[i].namespace == Some(ns);
          }
        }
      }
    }
  }

  /** The loop over the GetServices response. */
  method MapServices(records: seq<ServiceRecord>) returns (services: seq<Service>)
    ensures services == ServicesFromRecords(records)
  {
    services := [];
    var i := 0;
    while i < |records|
      invariant 0 <= i <= |records|
      invariant services == ServicesFromRecords(records[..i])
    {
      assert records[..i + 1][..i] == records[..i];
      var svc := records[i];
      var verStr: Option<string> := None;
      if svc.version.Some? {
        verStr := Some(VersionText(svc.version.value));
      }
      if svc.namespace.Some? && svc.namespace.value != "" {
        services := services + [Service(svc.namespace.value, if svc.xAddr.Some? then svc.xAddr.value else "", verStr)];
      }
      i := i + 1;
    }
    assert records[..i] == records;
  }

  // ---- GetCapabilities fallback -------------------------------------------

  /** A capability entry; `xAddr` is `None` when absent or empty. */
  datatype Capability = Capability(xAddr: Option<string>)

  /** A GetCapabilities response: the categories present, and the Extension's when there is one. */
  datatype Capabilities = Capabilities(categories: map<string, Capability>, extension: Option<map<string, Capability>>)

  /** Capability categories and their namespaces, in the order the fallback checks them. */
  const CapabilityTable: seq<(string, string)> := [
    ("Media", MediaNs), ("PTZ", PtzNs), ("Imaging", ImagingNs), ("Events", EventsNs), ("Analytics", AnalyticsNs)]

  /** Extension categories and their namespaces, in order. */
  const ExtensionTable: seq<(string, string)> := [
    ("Recording", RecordingNs), ("Search", SearchNs), ("Replay", ReplayNs), ("DeviceIO", DeviceIONs)]

  /** The services a table yields: one per category present, in table order, without version. */
  function FromTable(table: seq<(string, string)>, present: map<string, Capability>): (r: seq<Service>)
    ensures |r| <= |table|
    ensures forall i :: 0 <= i < |r| ==> r[i].version.None?
  {
    if table == [] then []
    else
      var (name, ns) := table[|table| - 1];
      FromTable(table[..|table| - 1], present) +
        (if name in present then [Service(ns, if present[name].xAddr.Some? then present[name].xAddr.value else "", None)] else [])
  }

  /** What the fallback reports: nothing if GetCapabilities raised, else the table services, then the extension's when there is one. */
  function CapabilityServices(caps: Result<Capabilities, string>): (r: seq<Service>)
    ensures caps.Err? ==> r == []
    ensures caps.Ok? && caps.value.extension.None? ==> |r| <= |CapabilityTable|
    ensures |r| <= |CapabilityTable| + |ExtensionTable|
    ensures forall i :: 0 <= i < |r| ==> r[i].version.None?
  {
    if caps.Err? then []
    else
      FromTable(CapabilityTable, caps.value.categories) +
        (if caps.value.extension.Some? then FromTable(ExtensionTable, caps.value.extension.value) else [])
  }

  /** A namespace is reported by a table exactly when its category is present. */
  lemma {:induction false} FromTableNamespaces(table: seq<(string, string)>, present: map<string, Capability>)
    ensures forall ns :: ns in Namespaces(FromTable(table, present)) <==>
      exists i :: 0 <= i < |table| && table[i].1 == ns && table[i].0 in present
  {
    if table != [] {
      var init := table[..|table| - 1];
      FromTableNamespaces(init, present);
      var (lastName, lastNs) := table[|table| - 1];
      var part := if lastName in present then [Service(lastNs, if present[lastName].xAddr.Some? then present[lastName].xAddr.value else "", None)] else [];
      assert FromTable(table, present) == FromTable(init, present) + part;
      NamespacesAppend(FromTable(init, present), part);
      var earlier := Namespaces(FromTable(init, present));
      NamespacesSmall(Service(lastNs, "", None));
      if lastName in present { NamespacesSmall(part[0]); }
      forall ns ensures ns in Namespaces(FromTable(table, present)) <==>
        exists i :: 0 <= i < |table| && table[i].1 == ns && table[i].0 in present
      {
        if ns in earlier {
          var i :| 0 <= i < |init| && init[i].1 == ns && init[i].0 in present;
          assert table[i] == init[i];
        } else if ns in Namespaces(part) {
          assert table[|table| - 1].1 == ns && table[|table| - 1].0 in present;
        }
        if exists i :: 0 <= i < |table| && table[i].1 == ns && table[i].0 in present {
          var i :| 0 <= i < |table| && table[i].1 == ns && table[i].0 in present;
          if i < |init| {
            assert init[i] == table[i];
          }
        }
      }
    }
  }

  /** The fallback never yields a recording namespace without the Extension. */
  lemma FallbackWithoutExtension(categories: map<string, Capability>)
    ensures RecordingNs !in Namespaces(CapabilityServices(Ok(Capabilities(categories, None))))
    ensures |CapabilityServices(Ok(Capabilities(categories, None)))| <= |CapabilityTable|
  {
    FromTableNamespaces(CapabilityTable, categories);
    assert forall i :: 0 <= i < |CapabilityTable| ==> CapabilityTable[i].1 != RecordingNs;
    assert RecordingNs !in Namespaces(FromTable(CapabilityTable, categories));
    assert CapabilityServices(Ok(Capabilities(categories, None))) == FromTable(CapabilityTable, categories) + [];
    assert FromTable(CapabilityTable, categories) + [] == FromTable(CapabilityTable, categories);
  }

  /** `_check_via_capabilities`: two loops over the tables; a failed GetCapabilities gives no services. */
  method CheckViaCapabilities(caps: Result<Capabilities, string>) returns (services: seq<Service>)
    ensures services == CapabilityServices(caps)
    ensures forall i :: 0 <= i < |services| ==> services[i].version.None?
  {
    services := [];
    if caps.Err? {
      return;
    }
    var c := caps.value;
    services := AppendPresent(CapabilityTable, c.categories, services);
    assert services == FromTable(CapabilityTable, c.categories);
    if c.extension.Some? {
      services := AppendPresent(ExtensionTable, c.extension.value, services);
    } else {
      assert services == services + [];
    }
  }

  /** One loop of the fallback: a service appended for each table category that is present, in table order. */
  method AppendPresent(table: seq<(string, string)>, present: map<string, Capability>, services: seq<Service>)
    returns (r: seq<Service>)
    ensures r == services + FromTable(table, present)
  {
    r := services;
    var i := 0;
    while i < |table|
      invariant 0 <= i <= |table|
      invariant r == services + FromTable(table[..i], present)
    {
      assert table[..i + 1][..i] == table[..i];
      var (capName, ns) := table[i];
      if capName in present {
        var xaddrVal := present[capName].xAddr;
        r := r + [Service(ns, if xaddrVal.Some? then xaddrVal.value else "", None)];
      }
      i := i + 1;
    }
    assert table[..i] == table;
  }

  // ---- check --------------------------------------------------------------

  const DevicePath := "/onvif/device_service"

  /** The device service address the checker contacts: https only when asked for. */
  function DeviceXaddr(ip: string, port: int, useHttps: bool): (r: string)
    ensures |r| >= 8
    ensures useHttps ==> r[..8] == "https://"
    ensures !useHttps ==> r[..7] == "http://"
    ensures |r| >= |DevicePath| && r[|r| - |DevicePath|..] == DevicePath
  {
    (if useHttps then "https" else "http") + "://" + ip + ":" + IntText(port) + DevicePath
  }

  /** What the device answered: to GetServices (null counts as no records) and to GetCapabilities; `Err` is what the call raised. */
  datatype DeviceAnswers = DeviceAnswers(
    getServices: Result<Option<seq<ServiceRecord>>, string>,
    getCapabilities: Result<Capabilities, string>)

  /** The envelope `check` returns. */
  datatype CheckResult = CheckResult(
    success: bool,
    services: seq<Service>,
    profiles: map<string, bool>,
    profileDetails: map<string, ProfileDefinition>,
    error: Option<string>)

  /** The services `check` reports: the GetServices records, or the fallback's if GetServices raised. The two are never merged. */
  function DiscoveredServices(answers: DeviceAnswers): seq<Service> {
    match answers.getServices
    case Err(_) => CapabilityServices(answers.getCapabilities)
    case Ok(None) => []
    case Ok(Some(records)) => ServicesFromRecords(records)
  }

  /**
   * `check`: `connect` gives, for a device service address, the outcome of
   * building the client and the proxy there, then asking the device.
   */
  method Check(ip: string, port: int, useHttps: bool, connect: string -> Result<DeviceAnswers, string>) returns (r: CheckResult)
    ensures var answered := connect(DeviceXaddr(ip, port, useHttps));
      && r.profileDetails == ProfileDefinitions
      && (answered.Err? ==> r == CheckResult(false, [], map[], ProfileDefinitions, Some(answered.error)))
      && (answered.Ok? ==>
            && r.success && r.error.None?
            && r.services == DiscoveredServices(answered.value)
            && r.profiles == ProfileSupport(r.services))
  {
    var xaddr := DeviceXaddr(ip, port, useHttps);
    var answered := connect(xaddr);
    if answered.Err? {
      return CheckResult(false, [], map[], ProfileDefinitions, Some(answered.error));
    }
    var answers := answered.value;
    var services: seq<Service>;
    match answers.getServices {
      case Err(_) =>
        services := CheckViaCapabilities(answers.getCapabilities);
      case Ok(response) =>
        services := MapServices(if response.Some? then response.value else []);
    }
    var supportedNs := set i | 0 <= i < |services| :: services[i].namespace;
    var profiles := map key | key in ProfileDefinitions :: AllOffered(ProfileDefinitions[key].required, supportedNs);
    r := CheckResult(true, services, profiles, ProfileDefinitions, None);
  }

  /** A device that answered neither discovery call: both GetServices and GetCapabilities raised. */
  predicate Silent(answers: DeviceAnswers) {
    answers.getServices.Err? && answers.getCapabilities.Err?
  }

  /**
   * `check` as written: a device that raises on both discovery calls (one
   * that cannot be reached once the proxy exists) is reported with no
   * services and no supported profile, under `success`, not as a failure.
   */
  lemma SilentDeviceLooksEmpty(answers: DeviceAnswers)
    requires Silent(answers)
    ensures DiscoveredServices(answers) == []
    ensures forall key :: key in ProfileDefinitions ==> !ProfileSupport(DiscoveredServices(answers))[key]
  {
    forall key | key in ProfileDefinitions
      ensures !ProfileSupport([])[key]
    {
      NothingOfferedNothingSupported(key);
    }
  }

  /**
   * `check` corrected so that a device answering neither discovery call
   * gets the failure envelope, carrying what GetServices raised; otherwise
   * the result is what `check` returns.
   */
  method CheckReachable(ip: string, port: int, useHttps: bool, connect: string -> Result<DeviceAnswers, string>) returns (r: CheckResult)
    ensures var answered := connect(DeviceXaddr(ip, port, useHttps));
      && r.profileDetails == ProfileDefinitions
      && (r.success <==> answered.Ok? && !Silent(answered.value))
      && (r.success <==> r.error.None?)
      && (!r.success ==> r.services == [] && r.profiles == map[])
      && (answered.Err? ==> r.error == Some(answered.error))
      && (answered.Ok? && Silent(answered.value) ==> r.error == Some(answered.value.getServices.error))
      && (r.success ==>
            && r.services == DiscoveredServices(answered.value)
            && r.profiles == ProfileSupport(r.services))
  {
    r := Check(ip, port, useHttps, connect);
    var answered := connect(DeviceXaddr(ip, port, useHttps));
    if answered.Ok? && Silent(answered.value) {
      r := CheckResult(false, [], map[], ProfileDefinitions, Some(answered.value.getServices.error));
    }
  }
}
