/**
 * The constant tables: the preset WSDL documents the UI offers, and the
 * endpoint path of each binding on the camera.
 */
module Config {

  /** One preset WSDL document. */
  datatype Preset = Preset(wsdl: string, namespace: string, binding: string, endpointPath: string, category: string)

  /** The presets, by display name, in display order. */
  const Presets: seq<(string, Preset)> := [
    ("Device Management", Preset("https://www.onvif.org/ver10/device/wsdl/devicemgmt.wsdl", "http://www.onvif.org/ver10/device/wsdl", "DeviceBinding", "/onvif/device_service", "Core")),
    ("Media (ver10)", Preset("https://www.onvif.org/ver10/media/wsdl/media.wsdl", "http://www.onvif.org/ver10/media/wsdl", "MediaBinding", "/onvif/media_service", "Core")),
    ("Media2 (ver20)", Preset("https://www.onvif.org/ver20/media/wsdl/media.wsdl", "http://www.onvif.org/ver20/media/wsdl", "Media2Binding", "/onvif/media_service", "Core")),
    ("PTZ", Preset("https://www.onvif.org/ver20/ptz/wsdl/ptz.wsdl", "http://www.onvif.org/ver20/ptz/wsdl", "PTZBinding", "/onvif/ptz_service", "Streaming & Control")),
    ("Imaging", Preset("https://www.onvif.org/ver20/imaging/wsdl/imaging.wsdl", "http://www.onvif.org/ver20/imaging/wsdl", "ImagingBinding", "/onvif/imaging_service", "Streaming & Control")),
    ("Events", Preset("https://www.onvif.org/ver10/events/wsdl/event.wsdl", "http://www.onvif.org/ver10/events/wsdl", "EventBinding", "/onvif/event_service", "Events & Analytics")),
    ("Analytics", Preset("https://www.onvif.org/ver20/analytics/wsdl/analytics.wsdl", "http://www.onvif.org/ver20/analytics/wsdl", "AnalyticsEngineBinding", "/onvif/analytics_service", "Events & Analytics")),
    ("Device I/O", Preset("https://www.onvif.org/ver10/deviceio.wsdl", "http://www.onvif.org/ver10/deviceIO/wsdl", "DeviceIOBinding", "/onvif/deviceio_service", "Hardware I/O")),
    ("Recording", Preset("https://www.onvif.org/ver10/recording.wsdl", "http://www.onvif.org/ver10/recording/wsdl", "RecordingBinding", "/onvif/recording_service", "Recording & Playback")),
    ("Search", Preset("https://www.onvif.org/ver10/search.wsdl", "http://www.onvif.org/ver10/search/wsdl", "SearchBinding", "/onvif/search_service", "Recording & Playback")),
    ("Replay", Preset("https://www.onvif.org/ver10/replay.wsdl", "http://www.onvif.org/ver10/replay/wsdl", "ReplayBinding", "/onvif/replay_service", "Recording & Playback")),
    ("Provisioning", Preset("https://www.onvif.org/ver10/provisioning/wsdl/provisioning.wsdl", "http://www.onvif.org/ver10/provisioning/wsdl", "ProvisioningBinding", "/onvif/provisioning_service", "Specialized")),
    ("Thermal", Preset("https://www.onvif.org/ver10/thermal/wsdl/thermal.wsdl", "http://www.onvif.org/ver10/thermal/wsdl", "ThermalBinding", "/onvif/thermal_service", "Specialized")),
    ("Access Control", Preset("https://www.onvif.org/ver10/pacs/accesscontrol.wsdl", "http://www.onvif.org/ver10/accesscontrol/wsdl", "PACSBinding", "/onvif/accesscontrol_service", "Access Control")),
    ("Door Control", Preset("https://www.onvif.org/ver10/pacs/doorcontrol.wsdl", "http://www.onvif.org/ver10/doorcontrol/wsdl", "DoorControlBinding", "/onvif/doorcontrol_service", "Access Control")),
    ("Credential", Preset("https://www.onvif.org/ver10/credential/wsdl/credential.wsdl", "http://www.onvif.org/ver10/credential/wsdl", "CredentialBinding", "/onvif/credential_service", "Access Control"))
  ]

  /** The camera endpoint path of each binding, by binding local name. */
  const EndpointMap: map<string, string> := map[
    "DeviceBinding" := "/onvif/device_service",
    "MediaBinding" := "/onvif/media_service",
    "Media2Binding" := "/onvif/media_service",
    "PTZBinding" := "/onvif/ptz_service",
    "ImagingBinding" := "/onvif/imaging_service",
    "EventBinding" := "/onvif/event_service",
    "NotificationProducerBinding" := "/onvif/event_service",
    "PullPointSubscriptionBinding" := "/onvif/event_service",
    "SubscriptionManagerBinding" := "/onvif/event_service",
    "NotificationConsumerBinding" := "/onvif/event_service",
    "PullPointBinding" := "/onvif/event_service",
    "CreatePullPointBinding" := "/onvif/event_service",
    "PausableSubscriptionManagerBinding" := "/onvif/event_service",
    "AnalyticsEngineBinding" := "/onvif/analytics_service",
    "RuleEngineBinding" := "/onvif/analytics_service",
    "DeviceIOBinding" := "/onvif/deviceio_service",
    "RecordingBinding" := "/onvif/recording_service",
    "SearchBinding" := "/onvif/search_service",
    "ReplayBinding" := "/onvif/replay_service",
    "ProvisioningBinding" := "/onvif/provisioning_service",
    "ThermalBinding" := "/onvif/thermal_service",
    "PACSBinding" := "/onvif/accesscontrol_service",
    "DoorControlBinding" := "/onvif/doorcontrol_service",
    "CredentialBinding" := "/onvif/credential_service"]

  /** The device service's entry: the path a camera's device service listens on. */
  lemma DeviceEntry()
    ensures "DeviceBinding" in EndpointMap && EndpointMap["DeviceBinding"] == "/onvif/device_service"
  {
  }

  /** The bindings of the event service, which one WSDL document defines together. */
  const EventBindings: set<string> := {
    "EventBinding", "NotificationProducerBinding", "PullPointSubscriptionBinding", "SubscriptionManagerBinding",
    "NotificationConsumerBinding", "PullPointBinding", "CreatePullPointBinding", "PausableSubscriptionManagerBinding"}

  /** All eight event bindings reach the one event endpoint. */
  lemma EventBindingsShareEndpoint()
    ensures |EventBindings| == 8
    ensures forall b :: b in EventBindings ==> b in EndpointMap && EndpointMap[b] == "/onvif/event_service"
  {
  }

  /** The two media bindings share an endpoint, and so do the analytics and rule engines. */
  lemma SharedEndpoints()
    ensures EndpointMap["MediaBinding"] == EndpointMap["Media2Binding"] == "/onvif/media_service"
    ensures EndpointMap["AnalyticsEngineBinding"] == EndpointMap["RuleEngineBinding"] == "/onvif/analytics_service"
  {
  }

  predicate IsSuffix(p: string, s: string) {
    |p| <= |s| && s[|s| - |p|..] == p
  }

  /** Every endpoint path starts `/onvif/`... */
  lemma EndpointPathPrefix()
    ensures forall b :: b in EndpointMap ==> "/onvif/" <= EndpointMap[b]
  {
  }

  /** ...and ends `_service`. */
  lemma EndpointPathSuffix()
    ensures forall b :: b in EndpointMap ==> IsSuffix("_service", EndpointMap[b])
  {
  }

  /** Each preset's endpoint path is the one the endpoint table gives its binding. */
  lemma PresetsAgreeWithEndpointMap()
    ensures forall i :: 0 <= i < |Presets| ==>
      Presets[i].1.binding in EndpointMap && EndpointMap[Presets[i].1.binding] == Presets[i].1.endpointPath
  {
  }
}
