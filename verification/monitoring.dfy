/** Routing and monitoring together: what the checker watches as rules are rebuilt and probes come in.
    A rebuild is two steps, since it publishes the routes before it hands the targets over; rebuilds
    by the panel and by the cluster's configuration updates may overlap there. */
module Monitoring {
  import opened Routes
  import Health

  datatype Change =
    | Published(list: seq<Rule>)
    | HandedOver(list: seq<Rule>)
    | Probed(target: string, ok: bool, errMsg: string)
    | AllMarked

  /** What the attached checker sees of a change. */
  function Seen(parse: Parser, c: Change): seq<Health.Event> {
    match c
    case Published(_) => []
    case HandedOver(list) => [Health.SetTargets(Monitored(parse, list))]
    case Probed(t, ok, errMsg) => [Health.Record(t, ok, errMsg)]
    case AllMarked => [Health.MarkAll]
  }

  function Events(parse: Parser, cs: seq<Change>): seq<Health.Event> {
    if cs == [] then [] else Events(parse, cs[..|cs| - 1]) + Seen(parse, cs[|cs| - 1])
  }

  /** The list of rules behind the routes that requests see. */
  function Current(cs: seq<Change>): seq<Rule> {
    if cs == [] then []
    else match cs[|cs| - 1] case Published(list) => list case _ => Current(cs[..|cs| - 1])
  }

  /** The list of rules behind the last targets handed over. */
  function Handed(cs: seq<Change>): seq<Rule> {
    if cs == [] then []
    else match cs[|cs| - 1] case HandedOver(list) => list case _ => Handed(cs[..|cs| - 1])
  }

  function Watched(parse: Parser, failures: int, cs: seq<Change>): map<string, Health.Report> {
    Health.Reports(failures, Events(parse, cs))
  }

  /** What the last change did to the reports. */
  lemma LastChange(parse: Parser, failures: int, cs: seq<Change>)
    requires cs != []
    ensures var before := Watched(parse, failures, cs[..|cs| - 1]);
            Watched(parse, failures, cs)
            == match cs[|cs| - 1]
               case Published(_) => before
               case HandedOver(list) => Health.AfterSetTargets(before, Monitored(parse, list))
               case Probed(t, ok, errMsg) => Health.AfterRecord(failures, before, t, ok, errMsg)
               case AllMarked => Health.AfterMarkAll(before)
  {
    var es, before, c := Events(parse, cs), Events(parse, cs[..|cs| - 1]), cs[|cs| - 1];
    if c.Published? {
      assert es == before;
    } else {
      assert es[..|es| - 1] == before && es[|es| - 1] == Seen(parse, c)[0];
    }
  }

  /** The checker watches exactly what was last handed over. */
  lemma {:induction false} WatchesHanded(parse: Parser, failures: int, cs: seq<Change>, t: string)
    ensures t in Watched(parse, failures, cs) <==> t in Monitored(parse, Handed(cs)) && t != ""
  {
    if cs != [] {
      WatchesHanded(parse, failures, cs[..|cs| - 1], t);
      LastChange(parse, failures, cs);
    }
  }

  /** After any series of rebuilds and probes, every backend of every enabled route is watched, if the
      last list handed over is the one last published, or at least names that backend too. */
  lemma RoutedIsWatched(parse: Parser, failures: int, cs: seq<Change>, host: string, d: Destination)
    requires host in RulesByHost(Current(cs)) && d in RuleDestinations(parse, RulesByHost(Current(cs))[host])
    ensures Handed(cs) == Current(cs) ==> d.url in Watched(parse, failures, cs)
    ensures d.url in Watched(parse, failures, cs) <==> d.url in Monitored(parse, Handed(cs))
  {
    RoutedIsHandedOver(parse, Current(cs), host, d);
    RuleDestinationsNamed(parse, RulesByHost(Current(cs))[host]);
    WatchesHanded(parse, failures, cs, d.url);
  }

  /** Two rebuilds that overlap: the older list is handed over last, and no backend that only the newer
      one names is watched, although its route is there. */
  lemma OverlapLosesBackend(parse: Parser, failures: int, cs: seq<Change>, older: seq<Rule>, newer: seq<Rule>,
                            host: string, d: Destination)
    requires host in RulesByHost(newer) && d in RuleDestinations(parse, RulesByHost(newer)[host])
    requires d.url !in Monitored(parse, older)
    ensures var after := cs + [Published(older), Published(newer), HandedOver(newer), HandedOver(older)];
            Current(after) == newer && d.url !in Watched(parse, failures, after)
  {
    var c1 := cs + [Published(older)];
    var c2 := c1 + [Published(newer)];
    var c3 := c2 + [HandedOver(newer)];
    var c4 := c3 + [HandedOver(older)];
    assert c4 == cs + [Published(older), Published(newer), HandedOver(newer), HandedOver(older)];
    assert c4[..|c3|] == c3 && c3[..|c2|] == c2 && c2[..|c1|] == c1;
    assert Current(c4) == Current(c3) == Current(c2) == newer;
    RoutedIsWatched(parse, failures, c4, host, d);
  }

  /** A rebuild changes nothing about a backend that was watched before and is still routed to;
      one that was not watched starts out healthy. */
  lemma RebuildKeepsReport(parse: Parser, failures: int, cs: seq<Change>, list: seq<Rule>, host: string, d: Destination)
    requires host in RulesByHost(list) && d in RuleDestinations(parse, RulesByHost(list)[host])
    ensures var before, after := Watched(parse, failures, cs),
                                 Watched(parse, failures, cs + [Published(list)] + [HandedOver(list)]);
            d.url in after && after[d.url] == if d.url in before then before[d.url] else Health.UNKNOWN
  {
    var published := cs + [Published(list)];
    var handed := published + [HandedOver(list)];
    assert published[..|cs|] == cs && handed[..|published|] == published;
    LastChange(parse, failures, published);
    LastChange(parse, failures, handed);
    RoutedIsHandedOver(parse, list, host, d);
    RuleDestinationsNamed(parse, RulesByHost(list)[host]);
  }
}
