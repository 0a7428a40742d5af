/** From the source last announced under each id to the messages the broker retains: what
    the runs of `Interleaving` say of the one holds of the other. */
module Announcements {
  import opened Sources
  import opened Discovery
  import Interleaving

  /** The broker retains the system message and, for each id, those of the source last
      announced under it; nothing else. */
  ghost predicate Shows(m: Mqtt, announced: map<string, SourceConfig>, r: Retained) {
    && SystemTopic(m.discoveryPrefix) in r && r[SystemTopic(m.discoveryPrefix)] == SystemPayload(m)
    && (forall id :: id in announced ==> announced[id].id == id && Announced(m, announced[id], r))
    && (forall t :: t in r ==> t == SystemTopic(m.discoveryPrefix) || OwnedById(m, announced, t))
  }

  ghost predicate OwnedById(m: Mqtt, announced: map<string, SourceConfig>, t: string) {
    exists id :: id in announced && OwnTopic(m.discoveryPrefix, id, t)
  }

  lemma AnnounceShows(m: Mqtt, announced: map<string, SourceConfig>, r: Retained, s: SourceConfig)
    requires On(m) && Shows(m, announced, r)
    ensures Shows(m, announced[s.id := s], Publish(m, s, r))
  {
    var a', r' := announced[s.id := s], Publish(m, s, r);
    PublishTouches(m, s, r);
    forall id | id in a' ensures a'[id].id == id && Announced(m, a'[id], r') {
      if id != s.id { StillAnnounced(m, announced[id], s.id, r, r'); }
    }
    forall t | t in r' && t != SystemTopic(m.discoveryPrefix) ensures OwnedById(m, a', t) {
      if OwnTopic(m.discoveryPrefix, s.id, t) {
        assert s.id in a';
      } else {
        assert t in r && OwnedById(m, announced, t);
        var id :| id in announced && OwnTopic(m.discoveryPrefix, id, t);
        assert id in a';
      }
    }
  }

  lemma ClearShows(m: Mqtt, announced: map<string, SourceConfig>, r: Retained, gone: string)
    requires m.enabled && Shows(m, announced, r)
    ensures Shows(m, announced - {gone}, Clear(m, gone, r))
  {
    var a', r' := announced - {gone}, Clear(m, gone, r);
    ClearTouches(m, gone, r);
    forall id | id in a' ensures a'[id].id == id && Announced(m, a'[id], r') {
      StillAnnounced(m, announced[id], gone, r, r');
    }
    forall t | t in r' && t != SystemTopic(m.discoveryPrefix) ensures OwnedById(m, a', t) {
      assert t in r && OwnedById(m, announced, t);
      var id :| id in announced && OwnTopic(m.discoveryPrefix, id, t);
      assert id in a';
    }
  }

  /** Messages that tell of each source as it is now, and of nothing else, mirror the sources. */
  lemma ToldMirrors(m: Mqtt, sources: Interleaving.ByName, announced: map<string, SourceConfig>, r: Retained,
                    list: seq<SourceConfig>)
    requires Shows(m, announced, r) && Interleaving.Told(sources, announced)
    requires forall s :: s in list <==> exists n :: n in sources && sources[n] == s
    ensures Mirrors(m, list, r)
  {
    forall s | s in list ensures Announced(m, s, r) {
      var n :| n in sources && sources[n] == s;
      assert announced[s.id] == s;
    }
    forall t | t in r && t != SystemTopic(m.discoveryPrefix) ensures OwnedBySome(m, list, t) {
      var id :| id in announced && OwnTopic(m.discoveryPrefix, id, t);
      assert Interleaving.UsesId(sources, id);
      var n :| n in sources && sources[n].id == id;
      assert sources[n] in list;
    }
  }
}
