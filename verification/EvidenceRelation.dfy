/** The relation that attaches a host event to a source address's chain, first as the code decides it from a
    mutable seed, then as a statement about the set of events already attached. */
module EvidenceRelation {
  import opened Common
  import opened Models

  const POST_AUTH_WINDOW_SECONDS: real := 900.0
  const POST_WEB_WINDOW_SECONDS: real := 600.0

  datatype Reason =
    | SameUserAfterSshSuccess | AppErrorAfterWebAttack
    | SharedExternalDestinationIp | SharedFilePath | SharedPidOrPpid | TextualTargetMatch
    | PropagatedSharedIp | PropagatedSharedFile | PropagatedSharedPid
    | WebAttackRelatedProcessArtifact

  predicate IsHostEvent(t: EventType) {
    || t.SudoExecution? || t.SuspiciousProcess? || t.ExternalNetworkConnection? || t.NetworkConnection?
    || t.SuspiciousFile? || t.PersistenceModified? || t.AppError? || t.AgentIntegrityChange? || t.SignatureMatch?
    || IsDrone(t)
  }

  function NonEmpty(s: string): set<string> {
    if s == "" then {} else {s}
  }

  function EventIps(e: Event): set<string> {
    NonEmpty(e.srcIp) + NonEmpty(e.dstIp) + NonEmpty(e.metadata.embeddedIp) + (set v | v in e.metadata.ips && v != "")
  }

  /** Unlike every other source of a path, the `paths` list is taken over without dropping empty entries. */
  function EventFiles(e: Event): set<string> {
    NonEmpty(e.filePath) + NonEmpty(e.metadata.embeddedFilePath) + NonEmpty(e.metadata.path) + (set p | p in e.metadata.paths)
  }

  function OptionSet(o: Option<int>): set<int> {
    if o.Some? then {o.value} else {}
  }

  /** Metadata counts whether the id is a number or a text. */
  function PidSet(o: Option<Pid>): set<int> {
    if o.Some? then {o.value.value} else {}
  }

  function EventPids(e: Event): set<int> {
    OptionSet(e.pid) + PidSet(e.metadata.pid) + PidSet(e.metadata.ppid)
  }

  predicate Within(a: Event, b: Event, seconds: real) {
    -seconds <= a.timestamp - b.timestamp <= seconds
  }

  function RelatedText(e: Event): string {
    e.raw + " " + e.process + " " + e.filePath
  }

  /** The growing search seed of one source address. */
  datatype Seed = Seed(
    srcIps: set<string>,
    users: set<string>,
    allUsers: set<string>,
    dstIps: set<string>,
    filePaths: set<string>,
    pids: set<int>,
    webAttackTimes: seq<Event>,
    sshSuccessTimes: seq<Event>)

  predicate HasRelatedText(e: Event, seed: Seed) {
    || (exists ip :: ip in seed.dstIps && ip != "" && Contains(RelatedText(e), ip))
    || (exists path :: path in seed.filePaths && path != "" && Contains(RelatedText(e), path))
  }

  /** The scan over the events already attached, first match first. */
  function Propagated(e: Event, included: seq<Event>): Option<Reason> {
    if included == [] then None
    else if EventIps(e) * EventIps(included[0]) != {} then Some(PropagatedSharedIp)
    else if EventFiles(e) * EventFiles(included[0]) != {} then Some(PropagatedSharedFile)
    else if EventPids(e) * EventPids(included[0]) != {} then Some(PropagatedSharedPid)
    else Propagated(e, included[1..])
  }

  function RelationReason(e: Event, seed: Seed, included: seq<Event>): Option<Reason> {
    if e.eventType.SudoExecution? then
      if e.user != "" && (e.user in seed.users || e.user in seed.allUsers)
         && exists s :: s in seed.sshSuccessTimes && Within(e, s, POST_AUTH_WINDOW_SECONDS)
      then Some(SameUserAfterSshSuccess)
      else None
    else if e.eventType.AppError? then
      if exists w :: w in seed.webAttackTimes && Within(e, w, POST_WEB_WINDOW_SECONDS)
      then Some(AppErrorAfterWebAttack)
      else None
    else if seed.dstIps != {} && EventIps(e) * seed.dstIps != {} then Some(SharedExternalDestinationIp)
    else if seed.filePaths != {} && EventFiles(e) * seed.filePaths != {} then Some(SharedFilePath)
    else if seed.pids != {} && EventPids(e) * seed.pids != {} then Some(SharedPidOrPpid)
    else if HasRelatedText(e, seed) then Some(TextualTargetMatch)
    else
      var scan := Propagated(e, included);
      if scan.Some? then scan
      else if e.eventType.SuspiciousProcess? && seed.webAttackTimes != []
              && (exists w :: w in seed.webAttackTimes && Within(e, w, POST_WEB_WINDOW_SECONDS))
              && HasRelatedText(e, seed)
      then Some(WebAttackRelatedProcessArtifact)
      else None
  }

  // ---- The relation as a statement about sets of events ----

  /** e's text names an address (other than the source's own) or a path that x carries. */
  ghost predicate NamesArtifactOf(ip: string, e: Event, x: Event) {
    || (exists t :: t in EventIps(x) && t != ip && t != "" && Contains(RelatedText(e), t))
    || (exists t :: t in EventFiles(x) && t != "" && Contains(RelatedText(e), t))
  }

  ghost predicate SharesArtifactWith(ip: string, e: Event, x: Event) {
    || EventIps(e) * EventIps(x) != {}
    || EventFiles(e) * EventFiles(x) != {}
    || EventPids(e) * EventPids(x) != {}
    || NamesArtifactOf(ip, e, x)
  }

  /** e belongs with the events of `attached`, given that the chain of `ip` started from `anchors`. */
  ghost predicate Linked(ip: string, anchors: set<Event>, attached: set<Event>, e: Event) {
    if e.eventType.SudoExecution? then
      && e.user != ""
      && (exists x :: x in attached && x.user == e.user)
      && (exists a :: a in anchors && a.eventType.SshSuccessLogin? && Within(e, a, POST_AUTH_WINDOW_SECONDS))
    else if e.eventType.AppError? then
      exists a :: a in anchors && a.eventType.WebAttackPattern? && Within(e, a, POST_WEB_WINDOW_SECONDS)
    else
      exists x :: x in attached && SharesArtifactWith(ip, e, x)
  }

  /** More anchors and more attached events only ever link more. */
  lemma LinkedMonotone(ip: string, a1: set<Event>, s1: set<Event>, a2: set<Event>, s2: set<Event>, e: Event)
    requires a1 <= a2 && s1 <= s2 && Linked(ip, a1, s1, e)
    ensures Linked(ip, a2, s2, e)
  {
    if e.eventType.SudoExecution? {
      var x :| x in s1 && x.user == e.user;
      assert x in s2;
    } else if !e.eventType.AppError? {
      var x :| x in s1 && SharesArtifactWith(ip, e, x);
      assert x in s2;
    }
  }

  /** What the seed must contain once exactly `included` has been absorbed. */
  ghost predicate SeedOf(ip: string, anchors: seq<Event>, included: seq<Event>, seed: Seed) {
    && seed.srcIps == {ip}
    && seed.users <= seed.allUsers
    && seed.allUsers == (set x | x in included && x.user != "" :: x.user)
    && seed.dstIps == (set x, t | x in included && t in EventIps(x) && t != ip :: t)
    && seed.filePaths == (set x, t | x in included && t in EventFiles(x) :: t)
    && seed.pids == (set x, t | x in included && t in EventPids(x) :: t)
    && (forall w :: w in seed.webAttackTimes <==> w in anchors && w.eventType.WebAttackPattern?)
    && (forall w :: w in seed.sshSuccessTimes <==> w in anchors && w.eventType.SshSuccessLogin?)
  }

  lemma {:induction false} PropagatedFinds(e: Event, included: seq<Event>)
    ensures Propagated(e, included).Some? <==>
            exists x :: x in included &&
                        (EventIps(e) * EventIps(x) != {} || EventFiles(e) * EventFiles(x) != {} || EventPids(e) * EventPids(x) != {})
  {
    if included != [] {
      PropagatedFinds(e, included[1..]);
      assert included == [included[0]] + included[1..];
    }
  }

  lemma RelatedTextNamesArtifact(ip: string, anchors: seq<Event>, included: seq<Event>, seed: Seed, e: Event)
    requires SeedOf(ip, anchors, included, seed)
    ensures HasRelatedText(e, seed) <==> exists x :: x in included && NamesArtifactOf(ip, e, x)
  {
    if t :| t in seed.dstIps && t != "" && Contains(RelatedText(e), t) {
      var x :| x in included && t in EventIps(x) && t != ip;
      assert NamesArtifactOf(ip, e, x);
    }
    if t :| t in seed.filePaths && t != "" && Contains(RelatedText(e), t) {
      var x :| x in included && t in EventFiles(x);
      assert NamesArtifactOf(ip, e, x);
    }
  }

  lemma SharedMeansLinked(ip: string, anchors: seq<Event>, included: seq<Event>, seed: Seed, e: Event)
    requires SeedOf(ip, anchors, included, seed)
    ensures EventIps(e) * seed.dstIps != {} ==> exists x :: x in included && SharesArtifactWith(ip, e, x)
    ensures EventFiles(e) * seed.filePaths != {} ==> exists x :: x in included && SharesArtifactWith(ip, e, x)
    ensures EventPids(e) * seed.pids != {} ==> exists x :: x in included && SharesArtifactWith(ip, e, x)
  {
    if t :| t in EventIps(e) * seed.dstIps {
      var x :| x in included && t in EventIps(x) && t != ip;
      assert t in EventIps(e) * EventIps(x);
    }
    if t :| t in EventFiles(e) * seed.filePaths {
      var x :| x in included && t in EventFiles(x);
      assert t in EventFiles(e) * EventFiles(x);
    }
    if t :| t in EventPids(e) * seed.pids {
      var x :| x in included && t in EventPids(x);
      assert t in EventPids(e) * EventPids(x);
    }
  }

  /** On a seed that describes exactly the attached events, the branches of the code decide the set relation. */
  lemma ReasonIffLinked(ip: string, anchors: seq<Event>, included: seq<Event>, seed: Seed, e: Event)
    requires SeedOf(ip, anchors, included, seed)
    ensures RelationReason(e, seed, included).Some? <==> Linked(ip, Elems(anchors), Elems(included), e)
  {
    if !e.eventType.SudoExecution? && !e.eventType.AppError? {
      SharedMeansLinked(ip, anchors, included, seed, e);
      PropagatedFinds(e, included);
      RelatedTextNamesArtifact(ip, anchors, included, seed, e);
      if x :| x in included && SharesArtifactWith(ip, e, x) {
        assert x in Elems(included);
      }
    } else if e.eventType.SudoExecution? {
      if x :| x in included && x.user == e.user && e.user != "" {
        assert e.user in seed.allUsers;
      }
    }
  }

  lemma {:induction false} ScanReasons(e: Event, included: seq<Event>)
    ensures Propagated(e, included) != Some(WebAttackRelatedProcessArtifact)
  {
    if included != [] {
      ScanReasons(e, included[1..]);
    }
  }

  /** The last branch of the relation is dead: text that would take it has already matched earlier. */
  lemma WebProcessReasonUnreachable(e: Event, seed: Seed, included: seq<Event>)
    ensures RelationReason(e, seed, included) != Some(WebAttackRelatedProcessArtifact)
  {
    ScanReasons(e, included);
  }

  // ---- The definitions in literals ----

  /** e carries the address in one of its fields. */
  predicate CarriesIp(e: Event, t: string) {
    t != "" && (t == e.srcIp || t == e.dstIp || t == e.metadata.embeddedIp || t in e.metadata.ips)
  }

  /** e carries the path in one of its fields; only the list may hold an empty one. */
  predicate CarriesFile(e: Event, t: string) {
    (t != "" && (t == e.filePath || t == e.metadata.embeddedFilePath || t == e.metadata.path)) || t in e.metadata.paths
  }

  predicate CarriesPid(e: Event, n: int) {
    || e.pid == Some(n)
    || (e.metadata.pid.Some? && e.metadata.pid.value.value == n)
    || (e.metadata.ppid.Some? && e.metadata.ppid.value.value == n)
  }

  /** The text searched for names: log line, process and path of the event. */
  predicate Names(e: Event, t: string) {
    t != "" && Contains(e.raw + " " + e.process + " " + e.filePath, t)
  }

  lemma ArtifactsInFull(e: Event)
    ensures forall t :: t in EventIps(e) <==> CarriesIp(e, t)
    ensures forall t :: t in EventFiles(e) <==> CarriesFile(e, t)
    ensures forall n :: n in EventPids(e) <==> CarriesPid(e, n)
  {
  }

  ghost predicate ShareIp(e: Event, x: Event) {
    exists t :: CarriesIp(e, t) && CarriesIp(x, t)
  }

  ghost predicate ShareFile(e: Event, x: Event) {
    exists t :: CarriesFile(e, t) && CarriesFile(x, t)
  }

  ghost predicate SharePid(e: Event, x: Event) {
    exists n :: CarriesPid(e, n) && CarriesPid(x, n)
  }

  lemma Meet<T>(a: set<T>, b: set<T>)
    ensures a * b != {} <==> exists t :: t in a && t in b
  {
    if t :| t in a && t in b {
      assert t in a * b;
    }
  }

  lemma MeetNumbers(a: set<int>, b: set<int>)
    ensures a * b != {} <==> exists n :: n in a && n in b
  {
    if n: int :| n in a && n in b {
      assert n in a * b;
    } else {
      assert a * b == {} by {
        forall n: int ensures n !in a * b {}
      }
    }
  }

  lemma SharesInFull(e: Event, x: Event)
    ensures EventIps(e) * EventIps(x) != {} <==> ShareIp(e, x)
    ensures EventFiles(e) * EventFiles(x) != {} <==> ShareFile(e, x)
    ensures EventPids(e) * EventPids(x) != {} <==> SharePid(e, x)
  {
    ArtifactsInFull(e);
    ArtifactsInFull(x);
    hide EventIps, EventFiles, EventPids, CarriesIp, CarriesFile, CarriesPid;
    Meet(EventIps(e), EventIps(x));
    Meet(EventFiles(e), EventFiles(x));
    MeetNumbers(EventPids(e), EventPids(x));
  }

  /** e shares an address, a path or a process id with x, or its text names an address of x other than the
      chain's own or a path of x. */
  ghost predicate Related(ip: string, e: Event, x: Event) {
    || ShareIp(e, x) || ShareFile(e, x) || SharePid(e, x)
    || (exists t :: CarriesIp(x, t) && t != ip && Names(e, t))
    || (exists t :: CarriesFile(x, t) && Names(e, t))
  }

  lemma SharesMeansRelated(ip: string, e: Event, x: Event)
    ensures SharesArtifactWith(ip, e, x) <==> Related(ip, e, x)
  {
    ArtifactsInFull(x);
    SharesInFull(e, x);
    hide EventIps, EventFiles, EventPids, CarriesIp, CarriesFile, CarriesPid, ShareIp, ShareFile, SharePid, Contains;
    if t :| t in EventIps(x) && t != ip && t != "" && Contains(RelatedText(e), t) {
      assert CarriesIp(x, t) && Names(e, t);
    }
    if t :| t in EventFiles(x) && t != "" && Contains(RelatedText(e), t) {
      assert CarriesFile(x, t) && Names(e, t);
    }
    if t :| CarriesIp(x, t) && t != ip && Names(e, t) {
      assert t in EventIps(x);
    }
    if t :| CarriesFile(x, t) && Names(e, t) {
      assert t in EventFiles(x);
    }
  }

  /** The scan stops at the first attached event that shares anything, and names an address before a path before a
      process id. */
  lemma {:induction false} ScanNamesFirst(e: Event, included: seq<Event>, k: nat)
    requires k < |included|
    requires forall j :: 0 <= j < k ==> !ShareIp(e, included[j]) && !ShareFile(e, included[j]) && !SharePid(e, included[j])
    requires ShareIp(e, included[k]) || ShareFile(e, included[k]) || SharePid(e, included[k])
    ensures Propagated(e, included) == Some(if ShareIp(e, included[k]) then PropagatedSharedIp
                                            else if ShareFile(e, included[k]) then PropagatedSharedFile else PropagatedSharedPid)
  {
    hide ShareIp, ShareFile, SharePid;
    SharesInFull(e, included[0]);
    if k > 0 {
      ScanNamesFirst(e, included[1..], k - 1);
    }
  }

  lemma {:induction false} ScanIsPropagated(e: Event, included: seq<Event>)
    ensures Propagated(e, included) in {None, Some(PropagatedSharedIp), Some(PropagatedSharedFile), Some(PropagatedSharedPid)}
  {
    if included != [] {
      ScanIsPropagated(e, included[1..]);
    }
  }

  lemma TextInFull(e: Event, seed: Seed)
    ensures HasRelatedText(e, seed) <==> exists t :: (t in seed.dstIps || t in seed.filePaths) && Names(e, t)
  {
    hide Contains;
    if t :| (t in seed.dstIps || t in seed.filePaths) && Names(e, t) {
      assert Contains(RelatedText(e), t);
    }
    if HasRelatedText(e, seed) {
      var t :| (t in seed.dstIps || t in seed.filePaths) && t != "" && Contains(RelatedText(e), t);
      assert Names(e, t);
    }
  }

  /** The reason recorded for an attached event: sudo and application errors have their own; for the others the first
      that holds of a shared destination, path and process id of the seed, and of a name found in the text; and
      otherwise what the scan says. */
  lemma ReasonInFull(e: Event, seed: Seed, included: seq<Event>)
    ensures var r := RelationReason(e, seed, included);
            && (e.eventType.SudoExecution? ==> r in {None, Some(SameUserAfterSshSuccess)})
            && (e.eventType.AppError? ==> r in {None, Some(AppErrorAfterWebAttack)})
            && (!e.eventType.SudoExecution? && !e.eventType.AppError? ==>
                  var ip := exists t :: t in seed.dstIps && CarriesIp(e, t);
                  var file := exists t :: t in seed.filePaths && CarriesFile(e, t);
                  var pid := exists n :: n in seed.pids && CarriesPid(e, n);
                  var text := exists t :: (t in seed.dstIps || t in seed.filePaths) && Names(e, t);
                  && (r == Some(SharedExternalDestinationIp) <==> ip)
                  && (r == Some(SharedFilePath) <==> !ip && file)
                  && (r == Some(SharedPidOrPpid) <==> !ip && !file && pid)
                  && (r == Some(TextualTargetMatch) <==> !ip && !file && !pid && text)
                  && (!ip && !file && !pid && !text ==> r == Propagated(e, included)))
  {
    ArtifactsInFull(e);
    TextInFull(e, seed);
    WebProcessReasonUnreachable(e, seed, included);
    ScanIsPropagated(e, included);
    hide EventIps, EventFiles, EventPids, CarriesIp, CarriesFile, CarriesPid, HasRelatedText, Names, Propagated, Within;
    Meet(EventIps(e), seed.dstIps);
    Meet(EventFiles(e), seed.filePaths);
    MeetNumbers(EventPids(e), seed.pids);
  }
}
