/** Home Assistant discovery: the topics and payloads for each source, and what the
    broker retains of them.  A retained publish with an empty payload clears its
    topic (section 3.3.1.3 of MQTT Version 3.1.1). */
module Discovery {
  import opened Util
  import opened Sources

  /** The MQTT settings that discovery depends on. */
  datatype Mqtt = Mqtt(enabled: bool, discovery: bool, discoveryPrefix: string, topic: string)

  const HUB_DEVICE_ID := "bark_detector"

  datatype Device = Device(identifier: string, name: string, viaDevice: Option<string>)

  datatype Payload =
    | Event(name: string, uniqueId: string, stateTopic: string, eventTypes: seq<string>,
            attributesTopic: string, diagnostic: bool, availabilityTopic: string, device: Device)
    | BinarySensor(name: string, uniqueId: string, deviceClass: string, stateTopic: string,
                   availabilityTopic: string, device: Device)

  type Retained = map<string, Payload>

  function DeviceId(id: string): string { "bark_detector_" + id }

  function DetectedTopic(prefix: string, id: string): string {
    prefix + "/event/" + DeviceId(id) + "/detected/config"
  }

  function ConnectivityTopic(prefix: string, id: string): string {
    prefix + "/binary_sensor/" + DeviceId(id) + "/connectivity/config"
  }

  function SystemTopic(prefix: string): string {
    prefix + "/event/" + HUB_DEVICE_ID + "/space_alert/config"
  }

  function DetectedPayload(m: Mqtt, s: SourceConfig): Payload {
    Event("Detected", DeviceId(s.id) + "_detected", m.topic + "/" + s.name + "/triggered",
      if s.listen != [] then s.listen else DEFAULT_LISTEN,
      m.topic + "/" + s.name + "/event", false, m.topic + "/bridge/status",
      Device(DeviceId(s.id), s.name, Some(HUB_DEVICE_ID)))
  }

  function ConnectivityPayload(m: Mqtt, s: SourceConfig): Payload {
    BinarySensor("Connectivity", DeviceId(s.id) + "_connectivity", "connectivity",
      m.topic + "/" + s.name + "/status", m.topic + "/bridge/status",
      Device(DeviceId(s.id), s.name, Some(HUB_DEVICE_ID)))
  }

  function SystemPayload(m: Mqtt): Payload {
    Event("Space Alert", HUB_DEVICE_ID + "_space_alert", m.topic + "/system/space_limit_reached",
      ["space_limit_reached"], m.topic + "/system/space_limit_reached", true,
      m.topic + "/bridge/status", Device(HUB_DEVICE_ID, "Bark Detector", None))
  }

  // -- topics never collide -----------------------------------------------------------

  lemma SameAffixes(prefix: string, a: string, b: string, suffix: string)
    requires prefix + a + suffix == prefix + b + suffix
    ensures a == b
  {
    var x, y := prefix + a + suffix, prefix + b + suffix;
    assert |a| == |b|;
    assert a == x[|prefix|..|prefix| + |a|] && b == y[|prefix|..|prefix| + |b|];
  }

  lemma DetectedTopicsDistinct(p: string, a: string, b: string)
    requires DetectedTopic(p, a) == DetectedTopic(p, b)
    ensures a == b
  {
    var front := p + "/event/" + "bark_detector_";
    assert DetectedTopic(p, a) == front + a + "/detected/config";
    assert DetectedTopic(p, b) == front + b + "/detected/config";
    SameAffixes(front, a, b, "/detected/config");
  }

  lemma ConnectivityTopicsDistinct(p: string, a: string, b: string)
    requires ConnectivityTopic(p, a) == ConnectivityTopic(p, b)
    ensures a == b
  {
    var front := p + "/binary_sensor/" + "bark_detector_";
    assert ConnectivityTopic(p, a) == front + a + "/connectivity/config";
    assert ConnectivityTopic(p, b) == front + b + "/connectivity/config";
    SameAffixes(front, a, b, "/connectivity/config");
  }

  lemma KindsDistinct(p: string, a: string, b: string)
    ensures DetectedTopic(p, a) != ConnectivityTopic(p, b)
    ensures DetectedTopic(p, a) != SystemTopic(p)
    ensures ConnectivityTopic(p, b) != SystemTopic(p)
  {
    var d, c, s := DetectedTopic(p, a), ConnectivityTopic(p, b), SystemTopic(p);
    assert d[|p| + 1] == 'e' && c[|p| + 1] == 'b' && s[|p| + 1] == 'e';
    assert d[|d| - 8] == 'd' && s[|s| - 8] == 't';
  }

  // -- what should be retained ------------------------------------------------------------

  ghost predicate OwnTopic(p: string, id: string, topic: string) {
    topic == DetectedTopic(p, id) || topic == ConnectivityTopic(p, id)
  }

  /** The retained discovery messages are the system entity and, for each current
      source, its two entities with its current name and listen list; nothing else. */
  ghost predicate Mirrors(m: Mqtt, sources: seq<SourceConfig>, r: Retained) {
    && SystemTopic(m.discoveryPrefix) in r && r[SystemTopic(m.discoveryPrefix)] == SystemPayload(m)
    && (forall s :: s in sources ==> Announced(m, s, r))
    && (forall t :: t in r ==> t == SystemTopic(m.discoveryPrefix) || OwnedBySome(m, sources, t))
  }

  ghost predicate Announced(m: Mqtt, s: SourceConfig, r: Retained) {
    && DetectedTopic(m.discoveryPrefix, s.id) in r
    && r[DetectedTopic(m.discoveryPrefix, s.id)] == DetectedPayload(m, s)
    && ConnectivityTopic(m.discoveryPrefix, s.id) in r
    && r[ConnectivityTopic(m.discoveryPrefix, s.id)] == ConnectivityPayload(m, s)
  }

  ghost predicate OwnedBySome(m: Mqtt, sources: seq<SourceConfig>, t: string) {
    exists s :: s in sources && OwnTopic(m.discoveryPrefix, s.id, t)
  }

  /** The message is retained under the topic. */
  predicate Shows(r: Retained, topic: string, payload: Payload) {
    topic in r && r[topic] == payload
  }

  /** What a mirror tells of each source: two entities of one device that carries its current
      name and, in the first, its current labels, under topics made of its id alone. */
  lemma MirrorTells(m: Mqtt, sources: seq<SourceConfig>, r: Retained, s: SourceConfig)
    requires Mirrors(m, sources, r) && s in sources
    ensures var device := Device(identifier := "bark_detector_" + s.id, name := s.name,
                                 viaDevice := Some("bark_detector"));
      && Shows(r, m.discoveryPrefix + "/event/bark_detector_" + s.id + "/detected/config",
           Event(name := "Detected", uniqueId := "bark_detector_" + s.id + "_detected",
                 stateTopic := m.topic + "/" + s.name + "/triggered",
                 eventTypes := if s.listen == [] then ["bark", "bow-wow", "howl", "yip"] else s.listen,
                 attributesTopic := m.topic + "/" + s.name + "/event", diagnostic := false,
                 availabilityTopic := m.topic + "/bridge/status", device := device))
      && Shows(r, m.discoveryPrefix + "/binary_sensor/bark_detector_" + s.id + "/connectivity/config",
           BinarySensor(name := "Connectivity", uniqueId := "bark_detector_" + s.id + "_connectivity",
                        deviceClass := "connectivity", stateTopic := m.topic + "/" + s.name + "/status",
                        availabilityTopic := m.topic + "/bridge/status", device := device))
  {
    assert Announced(m, s, r);
    LiteralTopics(m.discoveryPrefix, s.id);
  }

  ghost predicate OfSome(prefix: string, sources: seq<SourceConfig>, topic: string) {
    exists s :: s in sources && OfSource(prefix, s.id, topic)
  }

  predicate OfSource(prefix: string, id: string, topic: string) {
    || topic == prefix + "/event/bark_detector_" + id + "/detected/config"
    || topic == prefix + "/binary_sensor/bark_detector_" + id + "/connectivity/config"
  }

  lemma LiteralTopics(p: string, id: string)
    ensures DetectedTopic(p, id) == p + "/event/bark_detector_" + id + "/detected/config"
    ensures ConnectivityTopic(p, id) == p + "/binary_sensor/bark_detector_" + id + "/connectivity/config"
    ensures SystemTopic(p) == p + "/event/bark_detector/space_alert/config"
  {
    Flat(p, "/event/", "bark_detector_", id, "/detected/config");
    Flat(p, "/binary_sensor/", "bark_detector_", id, "/connectivity/config");
    assert "/event/" + "bark_detector_" == "/event/bark_detector_";
    assert "/binary_sensor/" + "bark_detector_" == "/binary_sensor/bark_detector_";
    SystemLiteral(p);
  }

  lemma Flat(p: string, a: string, b: string, id: string, tail: string)
    ensures p + a + (b + id) + tail == p + (a + b) + id + tail
  {
    assert p + a + (b + id) == p + (a + b) + id;
  }

  lemma SystemLiteral(p: string)
    ensures SystemTopic(p) == p + "/event/bark_detector/space_alert/config"
  {
    var tail := "/event/" + "bark_detector" + "/space_alert/config";
    assert tail == "/event/bark_detector/space_alert/config";
    assert SystemTopic(p) == p + tail;
  }

  /** A mirror holds the system entity, and nothing but it and the sources' entities. */
  lemma MirrorTellsNoMore(m: Mqtt, sources: seq<SourceConfig>, r: Retained)
    requires Mirrors(m, sources, r)
    ensures var prefix := m.discoveryPrefix;
      && Shows(r, prefix + "/event/bark_detector/space_alert/config",
           Event(name := "Space Alert", uniqueId := "bark_detector_space_alert",
                 stateTopic := m.topic + "/system/space_limit_reached", eventTypes := ["space_limit_reached"],
                 attributesTopic := m.topic + "/system/space_limit_reached", diagnostic := true,
                 availabilityTopic := m.topic + "/bridge/status",
                 device := Device(identifier := "bark_detector", name := "Bark Detector", viaDevice := None)))
      && forall t :: t in r ==> t == prefix + "/event/bark_detector/space_alert/config" || OfSome(prefix, sources, t)
  {
    LiteralTopics(m.discoveryPrefix, "");
    assert HUB_DEVICE_ID + "_space_alert" == "bark_detector_space_alert";
    forall t | t in r && t != SystemTopic(m.discoveryPrefix)
      ensures OfSome(m.discoveryPrefix, sources, t)
    {
      var s :| s in sources && OwnTopic(m.discoveryPrefix, s.id, t);
      LiteralTopics(m.discoveryPrefix, s.id);
      assert OfSource(m.discoveryPrefix, s.id, t);
    }
  }

  // -- what the publisher does to it --------------------------------------------------------

  predicate On(m: Mqtt) { m.enabled && m.discovery }

  function Publish(m: Mqtt, s: SourceConfig, r: Retained): Retained {
    if !On(m) then r
    else r[DetectedTopic(m.discoveryPrefix, s.id) := DetectedPayload(m, s)]
          [ConnectivityTopic(m.discoveryPrefix, s.id) := ConnectivityPayload(m, s)]
  }

  function Clear(m: Mqtt, id: string, r: Retained): Retained {
    if !m.enabled then r
    else r - {DetectedTopic(m.discoveryPrefix, id), ConnectivityTopic(m.discoveryPrefix, id)}
  }

  function PublishSystem(m: Mqtt, r: Retained): Retained {
    if !On(m) then r else r[SystemTopic(m.discoveryPrefix) := SystemPayload(m)]
  }

  function ClearSystem(m: Mqtt, r: Retained): Retained {
    if !m.enabled then r else r - {SystemTopic(m.discoveryPrefix)}
  }

  function PublishEach(m: Mqtt, sources: seq<SourceConfig>, r: Retained): Retained {
    if sources == [] then r else Publish(m, Last(sources), PublishEach(m, Front(sources), r))
  }

  function PublishAll(m: Mqtt, sources: seq<SourceConfig>, r: Retained): Retained {
    PublishEach(m, sources, PublishSystem(m, r))
  }

  function ClearEach(m: Mqtt, sources: seq<SourceConfig>, r: Retained): Retained {
    if sources == [] then r else Clear(m, Last(sources).id, ClearEach(m, Front(sources), r))
  }

  function ClearAll(m: Mqtt, sources: seq<SourceConfig>, r: Retained): Retained {
    ClearEach(m, sources, ClearSystem(m, r))
  }

  // -- one call at a time --------------------------------------------------------------------

  lemma TopicsApart(p: string, a: string, b: string)
    requires a != b
    ensures forall t :: OwnTopic(p, a, t) ==> !OwnTopic(p, b, t)
  {
    KindsDistinct(p, a, b);
    KindsDistinct(p, b, a);
    if DetectedTopic(p, a) == DetectedTopic(p, b) { DetectedTopicsDistinct(p, a, b); }
    if ConnectivityTopic(p, a) == ConnectivityTopic(p, b) { ConnectivityTopicsDistinct(p, a, b); }
  }

  /** Only a source's own topics change. */
  ghost predicate DiffersOnlyAt(p: string, id: string, r: Retained, r': Retained) {
    forall t :: !OwnTopic(p, id, t) ==> (t in r <==> t in r') && (t in r ==> r'[t] == r[t])
  }

  lemma StillAnnounced(m: Mqtt, x: SourceConfig, id: string, r: Retained, r': Retained)
    requires Announced(m, x, r) && x.id != id && DiffersOnlyAt(m.discoveryPrefix, id, r, r')
    ensures Announced(m, x, r')
  {
    TopicsApart(m.discoveryPrefix, x.id, id);
    assert OwnTopic(m.discoveryPrefix, x.id, DetectedTopic(m.discoveryPrefix, x.id));
    assert OwnTopic(m.discoveryPrefix, x.id, ConnectivityTopic(m.discoveryPrefix, x.id));
  }

  lemma PublishTouches(m: Mqtt, s: SourceConfig, r: Retained)
    requires On(m)
    ensures Announced(m, s, Publish(m, s, r)) && DiffersOnlyAt(m.discoveryPrefix, s.id, r, Publish(m, s, r))
    ensures !OwnTopic(m.discoveryPrefix, s.id, SystemTopic(m.discoveryPrefix))
  {
    KindsDistinct(m.discoveryPrefix, s.id, s.id);
  }

  lemma ClearTouches(m: Mqtt, id: string, r: Retained)
    requires m.enabled
    ensures DiffersOnlyAt(m.discoveryPrefix, id, r, Clear(m, id, r))
    ensures forall t :: OwnTopic(m.discoveryPrefix, id, t) ==> t !in Clear(m, id, r)
    ensures !OwnTopic(m.discoveryPrefix, id, SystemTopic(m.discoveryPrefix))
  {
    KindsDistinct(m.discoveryPrefix, id, id);
  }

  /** Publishing a source that replaces the one with its id (or is new) keeps the mirror:
      an add, an edit, and a rename all end here. */
  lemma PublishKeepsMirror(m: Mqtt, before: seq<SourceConfig>, after: seq<SourceConfig>, s: SourceConfig, r: Retained)
    requires On(m) && Mirrors(m, before, r) && UniqueIds(after) && s in after
    requires forall x :: x in after && x != s ==> x in before
    requires forall x :: x in before && x !in after ==> x.id == s.id
    ensures Mirrors(m, after, Publish(m, s, r))
  {
    var r' := Publish(m, s, r);
    PublishTouches(m, s, r);
    forall x | x in after ensures Announced(m, x, r') {
      if x != s { StillAnnounced(m, x, s.id, r, r'); }
    }
    forall t | t in r' && t != SystemTopic(m.discoveryPrefix) ensures OwnedBySome(m, after, t) {
      if !OwnTopic(m.discoveryPrefix, s.id, t) {
        assert t in r && OwnedBySome(m, before, t);
        var x :| x in before && OwnTopic(m.discoveryPrefix, x.id, t);
        assert x in after;
      }
    }
  }

  /** Clearing a deleted source's topics keeps the mirror of the rest. */
  lemma ClearKeepsMirror(m: Mqtt, before: seq<SourceConfig>, after: seq<SourceConfig>, gone: SourceConfig, r: Retained)
    requires m.enabled && Mirrors(m, before, r) && UniqueIds(before) && gone in before
    requires forall x :: x in after <==> x in before && x != gone
    ensures Mirrors(m, after, Clear(m, gone.id, r))
  {
    var r' := Clear(m, gone.id, r);
    ClearTouches(m, gone.id, r);
    forall x | x in after ensures Announced(m, x, r') {
      StillAnnounced(m, x, gone.id, r, r');
    }
    forall t | t in r' && t != SystemTopic(m.discoveryPrefix) ensures OwnedBySome(m, after, t) {
      assert t in r && OwnedBySome(m, before, t);
      var x :| x in before && OwnTopic(m.discoveryPrefix, x.id, t);
      assert x != gone;
    }
  }

  /** A reconnect publishes everything again and changes nothing. */
  lemma {:induction false} RepublishChangesNothing(
    m: Mqtt, sources: seq<SourceConfig>, part: seq<SourceConfig>, r: Retained)
    requires Mirrors(m, sources, r) && forall s :: s in part ==> s in sources
    ensures PublishAll(m, part, r) == r
  {
    if part != [] {
      RepublishChangesNothing(m, sources, Front(part), r);
      assert Announced(m, Last(part), r);
      assert Publish(m, Last(part), r) == r;
    } else {
      assert PublishSystem(m, r) == r;
    }
  }

  /** `r'` is `r` with the messages of these sources laid over it. */
  ghost predicate Added(m: Mqtt, sources: seq<SourceConfig>, r: Retained, r': Retained) {
    && (forall s :: s in sources ==> Announced(m, s, r'))
    && (forall t :: t in r' <==> t in r || OwnedBySome(m, sources, t))
    && (forall t :: t in r && !OwnedBySome(m, sources, t) ==> r'[t] == r[t])
  }

  /** Publishing some sources adds their topics and leaves all others as they were. */
  lemma {:induction false} PublishEachAdds(m: Mqtt, sources: seq<SourceConfig>, r: Retained)
    requires On(m) && UniqueIds(sources)
    ensures Added(m, sources, r, PublishEach(m, sources, r))
  {
    if sources != [] {
      var before, s := Front(sources), Last(sources);
      PublishEachAdds(m, before, r);
      LastIdDiffers(sources);
      PublishAddsOne(m, before, s, r, PublishEach(m, before, r));
    }
  }

  lemma LastIdDiffers(sources: seq<SourceConfig>)
    requires sources != [] && UniqueIds(sources)
    ensures UniqueIds(Front(sources)) && sources == Front(sources) + [Last(sources)]
    ensures forall x :: x in Front(sources) ==> x.id != Last(sources).id
  {
    forall x | x in Front(sources) ensures x.id != Last(sources).id {
      var i :| 0 <= i < |sources| - 1 && sources[i] == x;
      assert sources[i].id != sources[|sources| - 1].id;
    }
  }

  lemma PublishAddsOne(m: Mqtt, before: seq<SourceConfig>, s: SourceConfig, r: Retained, mid: Retained)
    requires On(m) && Added(m, before, r, mid) && forall x :: x in before ==> x.id != s.id
    ensures Added(m, before + [s], r, Publish(m, s, mid))
  {
    PublishTouches(m, s, mid);
    forall x | x in before ensures Announced(m, x, Publish(m, s, mid)) {
      StillAnnounced(m, x, s.id, mid, Publish(m, s, mid));
    }
    forall t
      ensures OwnedBySome(m, before + [s], t) <==> OwnedBySome(m, before, t) || OwnTopic(m.discoveryPrefix, s.id, t)
    {
      OneMoreOwner(m, before, s, t);
    }
  }

  lemma OneMoreOwner(m: Mqtt, before: seq<SourceConfig>, s: SourceConfig, t: string)
    ensures OwnedBySome(m, before + [s], t) <==> OwnedBySome(m, before, t) || OwnTopic(m.discoveryPrefix, s.id, t)
  {
    if OwnTopic(m.discoveryPrefix, s.id, t) { assert s in before + [s]; }
    if OwnedBySome(m, before + [s], t) {
      var x :| x in before + [s] && OwnTopic(m.discoveryPrefix, x.id, t);
    }
    if OwnedBySome(m, before, t) {
      var x :| x in before && OwnTopic(m.discoveryPrefix, x.id, t);
      assert x in before + [s];
    }
  }

  /** The broker retains no discovery message of anything but these sources and the system. */
  ghost predicate NoStrangers(m: Mqtt, sources: seq<SourceConfig>, r: Retained) {
    forall t :: t in r ==> t == SystemTopic(m.discoveryPrefix) || OwnedBySome(m, sources, t)
  }

  lemma SystemNotOwned(m: Mqtt, sources: seq<SourceConfig>)
    ensures !OwnedBySome(m, sources, SystemTopic(m.discoveryPrefix))
  {
    forall s | s in sources ensures !OwnTopic(m.discoveryPrefix, s.id, SystemTopic(m.discoveryPrefix)) {
      KindsDistinct(m.discoveryPrefix, s.id, s.id);
    }
  }

  /** A connect sets up the mirror, whatever the broker still retains from before, exactly when
      none of that is of another source: such a message is never cleared. */
  lemma ConnectMirrorsIff(m: Mqtt, sources: seq<SourceConfig>, r: Retained)
    requires On(m) && UniqueIds(sources)
    ensures Mirrors(m, sources, PublishAll(m, sources, r)) <==> NoStrangers(m, sources, r)
  {
    var r' := PublishAll(m, sources, r);
    PublishEachAdds(m, sources, PublishSystem(m, r));
    SystemNotOwned(m, sources);
    if Mirrors(m, sources, r') {
      forall t | t in r ensures t == SystemTopic(m.discoveryPrefix) || OwnedBySome(m, sources, t) {
        assert t in r';
      }
    }
  }

  // -- turning discovery off -------------------------------------------------------------------

  lemma {:induction false} ClearEachLeaves(m: Mqtt, sources: seq<SourceConfig>, r: Retained)
    requires m.enabled
    ensures forall t :: t in ClearEach(m, sources, r) <==> t in r && !OwnedBySome(m, sources, t)
  {
    if sources != [] {
      ClearEachLeaves(m, Front(sources), r);
      assert sources == Front(sources) + [Last(sources)];
      forall t ensures OwnedBySome(m, sources, t) <==>
        OwnedBySome(m, Front(sources), t) || OwnTopic(m.discoveryPrefix, Last(sources).id, t)
      {
        if OwnTopic(m.discoveryPrefix, Last(sources).id, t) { assert Last(sources) in sources; }
        if OwnedBySome(m, sources, t) {
          var s :| s in sources && OwnTopic(m.discoveryPrefix, s.id, t);
        }
      }
    }
  }

  /** Turning discovery off clears every retained discovery message exactly when MQTT stays
      enabled and the prefix stays the same: removal goes to the new settings' topics. */
  lemma TurningOffClearsIff(old_: Mqtt, new_: Mqtt, sources: seq<SourceConfig>, r: Retained)
    requires Mirrors(old_, sources, r) && !new_.discovery
    ensures ClearAll(new_, sources, r) == map[] <==> new_.enabled && new_.discoveryPrefix == old_.discoveryPrefix
  {
    var left := ClearAll(new_, sources, r);
    var t := SystemTopic(old_.discoveryPrefix);
    if !new_.enabled {
      DisabledClearsNothing(new_, sources, r);
      assert t in left;
    } else {
      ClearEachLeaves(new_, sources, ClearSystem(new_, r));
      if new_.discoveryPrefix == old_.discoveryPrefix {
        forall x | x in r ensures x !in left {
          if x != t { assert OwnedBySome(old_, sources, x) && OwnedBySome(new_, sources, x); }
        }
        assert left == map[];
      } else {
        OtherPrefixMisses(old_.discoveryPrefix, new_.discoveryPrefix, sources);
        assert t in left;
      }
    }
  }

  /** Topics under another prefix never hit this prefix's system topic. */
  lemma OtherPrefixMisses(p: string, q: string, sources: seq<SourceConfig>)
    requires p != q
    ensures SystemTopic(p) != SystemTopic(q)
    ensures forall id :: !OwnTopic(q, id, SystemTopic(p))
  {
    var t, tail := SystemTopic(p), "/event/" + HUB_DEVICE_ID + "/space_alert/config";
    assert t == p + tail && SystemTopic(q) == q + tail;
    var u := SystemTopic(q);
    assert p == t[..|t| - |tail|] && q == u[..|u| - |tail|];
    forall id ensures !OwnTopic(q, id, t) {
      var d, c := DetectedTopic(q, id), ConnectivityTopic(q, id);
      assert t[|t| - 8] == 't' && d[|d| - 8] == 'd' && c[|c| - 8] == 'y';
    }
  }

  lemma {:induction false} DisabledClearsNothing(m: Mqtt, sources: seq<SourceConfig>, r: Retained)
    requires !m.enabled
    ensures ClearAll(m, sources, r) == r
  {
    if sources != [] { DisabledClearsNothing(m, Front(sources), r); }
  }
}
