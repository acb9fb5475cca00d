/** The response projector (`generateWazuhResponse`, cmd/main.go): the minimal
    alert sent back to Wazuh, built from the first event of a MISP search
    result. The two extraction goroutines are pure calls; the `select` loop
    that collects their maps is `Drain` over the order the channels fire in. */
module Wazuh {
  import opened Wrappers
  import opened Misp

  /** A value of the outbound alert: a copied event field or an extracted
      relation-to-value map. */
  datatype Value = Str(text: string) | Fields(fields: map<string, string>)

  /** The outbound alert, `map[string]any` in the adapter. */
  type Alert = map<string, Value>

  /** Why an event cannot be projected; `Message` is the adapter's error text. */
  datatype ProjectionError = MissingMalwareAnalysis | MissingMalware
  {
    function Message(): string
    {
      match this
      case MissingMalwareAnalysis => "event doesn't contain any malware-analysis object"
      case MissingMalware => "event doesn't contain any malware object"
    }
  }

  /** The two channels the extraction goroutines send their maps on. */
  datatype Channel = AnalysisChan | MalwareChan

  const MalwareAnalysisName: string := "malware-analysis"
  const MalwareName: string := "malware"

  /** The relations kept from the "malware" object. */
  const MalwareFieldsFilter: set<string> := {"name", "malware_type"}

  /** The keys of a successfully projected alert. */
  const AlertKeys: set<string> := {"info", "date", "id", "uuid", "threat_level", "Malware_analysis", "Malware"}

  /** The alert key a channel's map is stored under. */
  function KeyOf(from: Channel): string
  {
    match from
    case AnalysisChan => "Malware_analysis"
    case MalwareChan => "Malware"
  }

  /** The alert value a channel delivers. */
  function Delivered(from: Channel, analysis: map<string, string>, malware: map<string, string>): Value
  {
    match from
    case AnalysisChan => Fields(analysis)
    case MalwareChan => Fields(malware)
  }

  /** The alert keys written by the channels that fired. */
  function ReceivedKeys(arrivals: seq<Channel>): set<string>
  {
    (if AnalysisChan in arrivals then {"Malware_analysis"} else {})
    + (if MalwareChan in arrivals then {"Malware"} else {})
  }

  /** The select loop: each receipt stores the map of the channel it came
      from under that channel's key, whatever the arrival order; the other
      entries are left alone. */
  function Drain(alert: Alert, arrivals: seq<Channel>, analysis: map<string, string>, malware: map<string, string>)
    : (r: Alert)
    ensures r.Keys == alert.Keys + ReceivedKeys(arrivals)
    ensures forall c :: c in arrivals ==> r[KeyOf(c)] == Delivered(c, analysis, malware)
    ensures forall k :: k in alert && k !in ReceivedKeys(arrivals) ==> r[k] == alert[k]
    decreases |arrivals|
  {
    if |arrivals| == 0 then alert
    else
      var from, rest := arrivals[0], arrivals[1..];
      var r := Drain(alert[KeyOf(from) := Delivered(from, analysis, malware)], rest, analysis, malware);
      assert forall c :: c in arrivals <==> c == from || c in rest;
      assert KeyOf(from) in ReceivedKeys(rest) <==> from in rest;
      r
  }

  /** The five event fields copied verbatim into the alert. */
  function EventFields(e: MispEvent): (alert: Alert)
    ensures alert.Keys == {"info", "date", "id", "uuid", "threat_level"}
    ensures alert["info"] == Str(e.info) && alert["date"] == Str(e.date)
    ensures alert["id"] == Str(e.id) && alert["uuid"] == Str(e.uuid)
    ensures alert["threat_level"] == Str(e.threatLevel)
  {
    map["info" := Str(e.info), "date" := Str(e.date), "id" := Str(e.id),
        "uuid" := Str(e.uuid), "threat_level" := Str(e.threatLevel)]
  }

  /** The two extraction goroutines each send once, so the two receipts of
      the select loop are one per channel, in either order. */
  predicate OnePerChannel(arrivals: seq<Channel>)
  {
    |arrivals| == 2 && arrivals[0] != arrivals[1]
  }

  /** Both channels fire in a two-receipt loop. */
  lemma BothChannelsFire(arrivals: seq<Channel>)
    requires OnePerChannel(arrivals)
    ensures AnalysisChan in arrivals && MalwareChan in arrivals
  {
    if arrivals[0] == AnalysisChan {
      assert arrivals[1] == MalwareChan;
    } else {
      assert arrivals[1] == AnalysisChan;
    }
  }

  /** The alert once both objects were found: the event's fields, then the
      two extracted maps under their channels' keys. */
  function Merge(e: MispEvent, analysis: map<string, string>, malware: map<string, string>, arrivals: seq<Channel>)
    : (alert: Alert)
    requires OnePerChannel(arrivals)
    ensures alert.Keys == AlertKeys
    ensures && alert["info"] == Str(e.info)
            && alert["date"] == Str(e.date)
            && alert["id"] == Str(e.id)
            && alert["uuid"] == Str(e.uuid)
            && alert["threat_level"] == Str(e.threatLevel)
    ensures alert["Malware_analysis"] == Fields(analysis)
    ensures alert["Malware"] == Fields(malware)
  {
    BothChannelsFire(arrivals);
    assert KeyOf(AnalysisChan) == "Malware_analysis" && KeyOf(MalwareChan) == "Malware";
    Drain(EventFields(e), arrivals, analysis, malware)
  }

  /** Projects the first event of a non-empty search result into an alert.
      `arrivals` is the order in which the two channels fire in the select
      loop. */
  function GenerateWazuhResponse(m: MispResult, arrivals: seq<Channel>): (r: Result<Alert, ProjectionError>)
    requires |m.response| > 0
    requires OnePerChannel(arrivals)
    ensures var objects := m.response[0].event.objects;
      !HasObjectNamed(objects, MalwareAnalysisName) ==> r == Failure(MissingMalwareAnalysis)
    ensures var objects := m.response[0].event.objects;
      HasObjectNamed(objects, MalwareAnalysisName) && !HasObjectNamed(objects, MalwareName) ==>
      r == Failure(MissingMalware)
    ensures var objects := m.response[0].event.objects;
      HasObjectNamed(objects, MalwareAnalysisName) && HasObjectNamed(objects, MalwareName) ==> r.Success?
    ensures r.Success? ==> r.value.Keys == AlertKeys
    ensures var e := m.response[0].event;
      r.Success? ==>
      && r.value["info"] == Str(e.info)
      && r.value["date"] == Str(e.date)
      && r.value["id"] == Str(e.id)
      && r.value["uuid"] == Str(e.uuid)
      && r.value["threat_level"] == Str(e.threatLevel)
    ensures var objects := m.response[0].event.objects;
      r.Success? ==> forall i :: IsFirstNamed(objects, MalwareAnalysisName, i) ==>
        r.value["Malware_analysis"] == Fields(ExtractMispObjectInfo(objects[i].attributes, None))
    ensures var objects := m.response[0].event.objects;
      r.Success? ==> forall i :: IsFirstNamed(objects, MalwareName, i) ==>
        r.value["Malware"] == Fields(ExtractMispObjectInfo(objects[i].attributes, Some(MalwareFieldsFilter)))
  {
    var e := m.response[0].event;
    match GetMispObject(MalwareAnalysisName, e.objects)
    case None => Failure(MissingMalwareAnalysis)
    case Some(analysisObject) =>
      match GetMispObject(MalwareName, e.objects)
      case None => Failure(MissingMalware)
      case Some(malwareObject) =>
        var analysis := ExtractMispObjectInfo(analysisObject.attributes, None);
        var malware := ExtractMispObjectInfo(malwareObject.attributes, Some(MalwareFieldsFilter));
        Success(Merge(e, analysis, malware, arrivals))
  }

  /** The alert does not depend on which extraction finishes first. */
  lemma ResponseIndependentOfArrival(m: MispResult, arrivals: seq<Channel>, arrivals': seq<Channel>)
    requires |m.response| > 0
    requires OnePerChannel(arrivals) && OnePerChannel(arrivals')
    ensures GenerateWazuhResponse(m, arrivals) == GenerateWazuhResponse(m, arrivals')
  {
    var e := m.response[0].event;
    var analysisObject := GetMispObject(MalwareAnalysisName, e.objects);
    var malwareObject := GetMispObject(MalwareName, e.objects);
    if analysisObject.Some? && malwareObject.Some? {
      var analysis := ExtractMispObjectInfo(analysisObject.value.attributes, None);
      var malware := ExtractMispObjectInfo(malwareObject.value.attributes, Some(MalwareFieldsFilter));
      MergeIndependentOfArrival(e, analysis, malware, arrivals, arrivals');
    }
  }

  /** Routing by origin makes the merged alert the same for both orders. */
  lemma MergeIndependentOfArrival(e: MispEvent, analysis: map<string, string>, malware: map<string, string>,
                                  arrivals: seq<Channel>, arrivals': seq<Channel>)
    requires OnePerChannel(arrivals) && OnePerChannel(arrivals')
    ensures Merge(e, analysis, malware, arrivals) == Merge(e, analysis, malware, arrivals')
  {
    SameAlert(Merge(e, analysis, malware, arrivals), Merge(e, analysis, malware, arrivals'));
  }

  /** Two alerts with the seven keys are equal when they agree on each. */
  lemma SameAlert(a: Alert, b: Alert)
    requires a.Keys == AlertKeys && b.Keys == AlertKeys
    requires a["info"] == b["info"] && a["date"] == b["date"] && a["id"] == b["id"] && a["uuid"] == b["uuid"]
    requires a["threat_level"] == b["threat_level"]
    requires a["Malware_analysis"] == b["Malware_analysis"] && a["Malware"] == b["Malware"]
    ensures a == b
  {
    assert forall k | k in a :: a[k] == b[k];
  }

  /** On success the "Malware" entry holds exactly the name and type relations
      of the first "malware" object, each with its last value, and the
      "Malware_analysis" entry every relation of the first "malware-analysis"
      object. */
  lemma AlertObjectEntries(m: MispResult, arrivals: seq<Channel>, i: int, j: int)
    requires |m.response| > 0
    requires OnePerChannel(arrivals)
    requires IsFirstNamed(m.response[0].event.objects, MalwareName, i)
    requires IsFirstNamed(m.response[0].event.objects, MalwareAnalysisName, j)
    ensures var r := GenerateWazuhResponse(m, arrivals);
      && r.Success?
      && r.value["Malware"].Fields?
      && r.value["Malware"].fields.Keys ==
         Relations(m.response[0].event.objects[i].attributes) * {"name", "malware_type"}
      && r.value["Malware_analysis"].Fields?
      && r.value["Malware_analysis"].fields.Keys == Relations(m.response[0].event.objects[j].attributes)
    ensures var r := GenerateWazuhResponse(m, arrivals);
      var attributes := m.response[0].event.objects[i].attributes;
      forall k :: IsLastOfItsRelation(attributes, k) && attributes[k].objectRelation in {"name", "malware_type"} ==>
        r.value["Malware"].fields[attributes[k].objectRelation] == attributes[k].value
  {
    var objects := m.response[0].event.objects;
    assert objects[i] in objects && objects[j] in objects;
  }
}
