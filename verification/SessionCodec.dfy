/** What is known of a session's codec across creation, polls, claims and ad reports, and the
progress of a resume. */
module SessionCodec {
  import opened Prelude

  datatype Codec = H264 | H265 | AV1

  datatype Source = Unreported | Request | Server

  datatype Profile = Profile(codec: Option<Codec>, source: Source)

  // What one server answer says of the codec: nothing, something unknown, or a codec.
  datatype Evidence = Silent | Unusable | Usable(codec: Codec)

  // A server answer, as far as it is modelled. `endpoints` counts the native stream endpoints.
  datatype Report = Report(sessionId: string, status: int, endpoints: nat, evidence: Evidence)

  datatype Info = Info(
    sessionId: string, status: int, endpoints: nat, phase: string, profile: Profile,
    keyboardLayout: Option<string>, resumePending: Option<bool>)

  datatype ServiceError = NoSessionId | NotResumable | NotSent | Refused(status: nat)

  function SessionPhase(status: int): string {
    if status == 1 then "preparing"
    else if status == 2 then "ready"
    else if status == 3 then "streaming"
    else if status == 4 || status == 5 then "paused"
    else if status == 6 then "resuming"
    else if status > 3 then "failed"
    else "requesting"
  }

  function ProfileOf(e: Evidence): Profile {
    match e
    case Silent => Profile(None, Unreported)
    case Unusable => Profile(None, Server)
    case Usable(c) => Profile(Some(c), Server)
  }

  // `session_info`
  function InfoOf(r: Report): Result<Info, ServiceError> {
    if r.sessionId == "" then Err(NoSessionId)
    else Ok(Info(r.sessionId, r.status, r.endpoints, SessionPhase(r.status), ProfileOf(r.evidence), None, None))
  }

  // What is known is kept when the new answer is silent, or when it only repeats the request
  // and the server has spoken.
  function Merged(fresher: Profile, known: Profile): Profile {
    if !(fresher.source == Unreported || (fresher.source == Request && known.source == Server))
       || known.codec.None? || known.source == Unreported
    then fresher else known
  }

  // `preserve_session_codec`
  function Preserved(info: Info, sessionId: string, known: Profile): Info {
    if info.sessionId == "" || sessionId != info.sessionId then info
    else info.(profile := Merged(info.profile, known))
  }

  // What `store_active` makes of new information.
  function Kept(info: Info, active: Option<Info>): Info {
    if active.None? then info else
    var previous := active.value;
    var kept := Preserved(info, previous.sessionId, previous.profile);
    if previous.sessionId == info.sessionId && info.keyboardLayout.None?
    then kept.(keyboardLayout := previous.keyboardLayout) else kept
  }

  predicate IsReady(status: int, endpoints: nat) {
    (status == 2 || status == 3) && endpoints > 0
  }

  predicate IsLive(status: int) {
    1 <= status <= 6
  }

  // `mark_resume_progress`
  function Progressed(info: Info): Info {
    if !IsLive(info.status) then info.(resumePending := Some(false), phase := "failed")
    else if IsReady(info.status, info.endpoints) then info.(resumePending := Some(false))
    else info.(resumePending := Some(true), phase := "resuming")
  }

  // ---- Events ----

  // What a call does once its requests are answered. Calls overlap: a poll notes when it begins
  // whether a resume is pending, and other calls can store their answers before it stores its own.
  datatype Event =
    | Created(report: Report, requested: Option<Codec>, layout: string)
    | Polled(report: Report, direct: Option<Report>, resuming: bool)
    | Claimed(report: Report, layout: string)
    | AdReported(report: Report)
    | Stopped

  predicate Resuming(active: Option<Info>) {
    active.Some? && active.value.resumePending == Some(true)
  }

  // The new information an event brings, before what was known is kept.
  function Brought(e: Event): Result<Info, ServiceError> {
    match e
    case Created(report, requested, layout) =>
      var info := InfoOf(report);
      if info.Err? then info
      else Ok(Preserved(info.value.(keyboardLayout := Some(layout)), info.value.sessionId, Profile(requested, Request)))
    case Polled(report, direct, resuming) =>
      var info := InfoOf(report);
      if info.Err? then info else
      var seen := Directed(info.value, direct);
      Ok(if resuming then Progressed(seen) else seen)
    case Claimed(report, layout) =>
      if !IsLive(report.status) then Err(NotResumable) else
      var info := InfoOf(report);
      if info.Err? then info
      else Ok(info.value.(keyboardLayout := if 2 <= report.status <= 5 then Some(layout) else None,
                          resumePending := Some(true), phase := "resuming"))
    case AdReported(report) => InfoOf(report)
    case Stopped => Err(NoSessionId)
  }

  // A ready session is asked again at its own server, whose answer is preferred.
  function Directed(info: Info, direct: Option<Report>): Info {
    if (info.status == 2 || info.status == 3) && direct.Some? && InfoOf(direct.value).Ok?
    then Preserved(InfoOf(direct.value).value, info.sessionId, info.profile)
    else info
  }

  function Next(active: Option<Info>, e: Event): Option<Info> {
    if e.Stopped? then None else
    var info := Brought(e);
    if info.Err? then active else Some(Kept(info.value, active))
  }

  function After(events: seq<Event>): Option<Info> {
    if events == [] then None else Next(After(events[..|events| - 1]), events[|events| - 1])
  }

  // ---- What is stored ----

  // The report an event goes by: for a ready session, what its own server says if that can be used.
  function Deciding(e: Event): Report
    requires !e.Stopped?
  {
    if e.Polled? && (e.report.status == 2 || e.report.status == 3) && e.direct.Some? && e.direct.value.sessionId != ""
    then e.direct.value else e.report
  }

  // An event that stores nothing: there is no session id, or nothing to claim.
  predicate StoresNothing(e: Event)
    requires !e.Stopped?
  {
    e.report.sessionId == "" || (e.Claimed? && !(1 <= e.report.status <= 6))
  }

  // The phase of a session outside a resume.
  predicate PhaseIs(status: int, phase: string) {
    if status <= 0 then phase == "requesting"
    else if status >= 7 then phase == "failed"
    else phase == ["preparing", "ready", "streaming", "paused", "paused", "resuming"][status - 1]
  }

  /** What every event stores. Id, status and endpoints are those of the deciding report. The
      keyboard layout is that of the creation or the resuming claim, or else what is stored for the
      same session. A claim makes the resume pending, and a poll that began during a resume keeps it
      so until the session can be streamed or is over; the phase says which. */
  lemma {:induction false} StoredIs(active: Option<Info>, e: Event)
    requires !e.Stopped?
    ensures StoresNothing(e) ==> Next(active, e) == active
    ensures Brought(e).Err? <==> StoresNothing(e)
    ensures StoresNothing(e) ==>
              Brought(e).error == if e.Claimed? && !(1 <= e.report.status <= 6) then NotResumable else NoSessionId
    ensures !StoresNothing(e) ==>
              var r, next := Deciding(e), Next(active, e);
              var same := active.Some? && active.value.sessionId == r.sessionId;
              && next.Some?
              && next.value.sessionId == r.sessionId && next.value.status == r.status
              && next.value.endpoints == r.endpoints
              && next.value.keyboardLayout == (if e.Created? || (e.Claimed? && 2 <= r.status <= 5) then Some(e.layout)
                                               else if same then active.value.keyboardLayout else None)
    ensures !StoresNothing(e) ==>
              var r, next := Deciding(e), Next(active, e).value;
              var over, ready := !(1 <= r.status <= 6), (r.status == 2 || r.status == 3) && r.endpoints > 0;
              if e.Claimed? then next.resumePending == Some(true) && next.phase == "resuming"
              else if !e.Polled? || !e.resuming then next.resumePending == None && PhaseIs(r.status, next.phase)
              else if over then next.resumePending == Some(false) && next.phase == "failed"
              else if ready then next.resumePending == Some(false) && PhaseIs(r.status, next.phase)
              else next.resumePending == Some(true) && next.phase == "resuming"
  {
    if e.Polled? && e.report.sessionId != "" {
      DecidingSays(e);
    }
  }

  // What an event brings, before anything known is kept.
  lemma {:induction false} DecidingSays(e: Event)
    requires e.Polled? && e.report.sessionId != ""
    ensures var r, seen := Deciding(e), Directed(InfoOf(e.report).value, e.direct);
            && seen.sessionId == r.sessionId && seen.status == r.status && seen.endpoints == r.endpoints
            && seen.keyboardLayout.None? && seen.resumePending.None? && seen.phase == SessionPhase(r.status)
  {
  }

  // What a report says of the codec.
  function Said(r: Report): Profile {
    match r.evidence
    case Silent => Profile(None, Unreported)
    case Unusable => Profile(None, Server)
    case Usable(c) => Profile(Some(c), Server)
  }

  /** The first thing stored of a session: what the server said of the codec, the deciding report
      first; a creation that heard nothing keeps the codec it asked for. */
  lemma {:induction false} FirstProfileIs(active: Option<Info>, e: Event)
    requires !e.Stopped? && !StoresNothing(e) && (active.Some? ==> active.value.sessionId != Deciding(e).sessionId)
    ensures var said, profile := Said(Deciding(e)), Next(active, e).value.profile;
            if said != Profile(None, Unreported) then profile == said
            else if e.Created? && e.requested.Some? then profile == Profile(e.requested, Request)
            else if e.Polled? && Deciding(e).sessionId == e.report.sessionId && Said(e.report).codec.Some?
            then profile == Said(e.report)
            else profile == said
  {
  }

  /** Of a session that is stored already, what was known of its codec is kept exactly when it names
      one and the news is silent, or only a request where the server has spoken. */
  lemma {:induction false} KnownProfileIs(active: Info, e: Event)
    requires !e.Stopped? && !StoresNothing(e) && active.sessionId == Deciding(e).sessionId
    ensures var news, known := Next(None, e).value.profile, active.profile;
            var weaker := news.source == Unreported || (news.source == Request && known.source == Server);
            Next(Some(active), e).value.profile
            == if weaker && known.codec.Some? && known.source != Unreported then known else news
  {
  }

  // ---- Codec evidence of one session ----

  // Every answer in the event is about this session, and the event takes effect.
  predicate About(e: Event, id: string) {
    && !e.Stopped? && id != "" && e.report.sessionId == id
    && (e.Polled? && e.direct.Some? ==> e.direct.value.sessionId == id)
    && (e.Claimed? ==> IsLive(e.report.status))
  }

  // What the server says of the codec in one event: its own server first, if it was asked.
  function Heard(e: Event): Evidence
    requires !e.Stopped?
  {
    if e.Polled? && (e.report.status == 2 || e.report.status == 3) && e.direct.Some?
    then
      if !e.direct.value.evidence.Silent? then e.direct.value.evidence
      else if e.report.evidence.Usable? then e.report.evidence
      else Silent
    else e.report.evidence
  }

  // The profile an event brings: what was heard, or else the codec of the request.
  function BroughtProfile(e: Event): Profile
    requires !e.Stopped?
  {
    if e.Created? && Heard(e).Silent? && e.requested.Some? then Profile(e.requested, Request) else ProfileOf(Heard(e))
  }

  lemma {:induction false} BroughtIs(e: Event, id: string)
    requires About(e, id)
    ensures var info := Brought(e);
            info.Ok? && info.value.sessionId == id && info.value.profile == BroughtProfile(e)
  {
    match e
    case Created(_, _, _) =>
    case Polled(_, _, _) => DirectedIs(e);
    case Claimed(_, _) =>
    case AdReported(_) =>
  }

  lemma {:induction false} DirectedIs(e: Event)
    requires e.Polled? && About(e, e.report.sessionId)
    ensures var seen := Directed(InfoOf(e.report).value, e.direct);
            seen.sessionId == e.report.sessionId && seen.profile == BroughtProfile(e)
  {
  }

  // What an event about the session makes of a stored profile.
  function NextProfile(known: Option<Profile>, e: Event): Profile
    requires !e.Stopped?
  {
    if known.None? then BroughtProfile(e) else Merged(BroughtProfile(e), known.value)
  }

  function ProfileIn(active: Option<Info>): Option<Profile> {
    if active.Some? then Some(active.value.profile) else None
  }

  lemma {:induction false} NextHas(active: Option<Info>, e: Event, id: string)
    requires About(e, id) && (active.Some? ==> active.value.sessionId == id)
    ensures var next := Next(active, e);
            next.Some? && next.value.sessionId == id && next.value.profile == NextProfile(ProfileIn(active), e)
  {
    BroughtIs(e, id);
  }

  function Rank(p: Profile): nat {
    match p.source
    case Unreported => 0
    case Request => 1
    case Server => 2
  }

  // Only the server can have spoken without naming a usable codec.
  predicate Coherent(p: Profile) {
    match p.source
    case Unreported => p.codec.None?
    case Request => p.codec.Some?
    case Server => true
  }

  lemma {:induction false} StaysCoherent(known: Option<Profile>, e: Event)
    requires !e.Stopped? && (known.Some? ==> Coherent(known.value))
    ensures Coherent(NextProfile(known, e))
  {
  }

  /** The rank of what is known falls in exactly one case: the server had reported an unusable
      codec, and the next answer does not report one. */
  lemma {:induction false} RankFallsIff(known: Profile, e: Event)
    requires !e.Stopped? && Coherent(known)
    ensures Rank(NextProfile(Some(known), e)) < Rank(known) <==> known == Profile(None, Server) && Heard(e).Silent?
  {
  }

  // ---- Runs about one session ----

  ghost predicate RunAbout(events: seq<Event>, id: string) {
    forall i :: 0 <= i < |events| ==> About(events[i], id)
  }

  ghost predicate OnlyUsable(events: seq<Event>) {
    forall i :: 0 <= i < |events| ==> !events[i].Stopped? && !Heard(events[i]).Unusable?
  }

  lemma {:induction false} AfterHas(events: seq<Event>, id: string)
    requires RunAbout(events, id)
    ensures var active := After(events);
            active.Some? ==> active.value.sessionId == id && Coherent(active.value.profile)
    ensures events != [] ==> After(events).Some?
  {
    if events != [] {
      var rest, e := events[..|events| - 1], events[|events| - 1];
      AfterHas(rest, id);
      NextHas(After(rest), e, id);
      StaysCoherent(ProfileIn(After(rest)), e);
    }
  }

  lemma {:induction false} AfterStep(events: seq<Event>, i: nat)
    requires i < |events|
    ensures After(events[..i + 1]) == Next(After(events[..i]), events[i])
  {
    assert events[..i + 1][..i] == events[..i];
  }

  lemma {:induction false} RankStep(events: seq<Event>, id: string, j: nat)
    requires RunAbout(events, id) && OnlyUsable(events) && 0 < j < |events|
    ensures After(events[..j]).Some? && After(events[..j + 1]).Some?
    ensures Rank(After(events[..j]).value.profile) <= Rank(After(events[..j + 1]).value.profile)
  {
    AfterHas(events[..j], id);
    AfterStep(events, j);
    NextHas(After(events[..j]), events[j], id);
    NeverUnusable(events, id, j);
    RankFallsIff(After(events[..j]).value.profile, events[j]);
  }

  /** While the server reports no unusable codec, no update of the session lowers the rank. */
  lemma {:induction false} RankNeverFalls(events: seq<Event>, id: string, i: nat, j: nat)
    requires RunAbout(events, id) && OnlyUsable(events) && 0 < i <= j <= |events|
    ensures After(events[..i]).Some? && After(events[..j]).Some?
    ensures Rank(After(events[..i]).value.profile) <= Rank(After(events[..j]).value.profile)
    decreases j
  {
    if i < j {
      RankNeverFalls(events, id, i, j - 1);
      RankStep(events, id, j - 1);
    } else {
      NeverUnusable(events, id, i);
    }
  }

  lemma {:induction false} NeverUnusable(events: seq<Event>, id: string, i: nat)
    requires RunAbout(events, id) && OnlyUsable(events) && 0 < i <= |events|
    ensures After(events[..i]).Some? && After(events[..i]).value.profile != Profile(None, Server)
  {
    AfterHas(events[..i], id);
    AfterStep(events, i - 1);
    AfterHas(events[..i - 1], id);
    NextHas(After(events[..i - 1]), events[i - 1], id);
    if i > 1 {
      NeverUnusable(events, id, i - 1);
    }
  }

  // The codec of the latest usable server report.
  function LatestServer(events: seq<Event>): Option<Codec>
    requires forall i :: 0 <= i < |events| ==> !events[i].Stopped?
  {
    if events == [] then None else
    var heard := Heard(events[|events| - 1]);
    if heard.Usable? then Some(heard.codec) else LatestServer(events[..|events| - 1])
  }

  /** The stored codec is the latest the server reported, once it has reported one. */
  lemma {:induction false} LatestServerCodecStays(events: seq<Event>, id: string)
    requires RunAbout(events, id) && OnlyUsable(events)
    ensures LatestServer(events).Some? ==>
              After(events).Some? && After(events).value.profile == Profile(LatestServer(events), Server)
  {
    if events != [] {
      var rest, e := events[..|events| - 1], events[|events| - 1];
      LatestServerCodecStays(rest, id);
      AfterHas(rest, id);
      NextHas(After(rest), e, id);
    }
  }

  // A poll outside a resume, of a session whose own server is not asked.
  function PolledOnce(report: Report): Event {
    Polled(report, None, false)
  }

  /** With an unusable report the rank can fall: here the server's codec is forgotten. */
  lemma {:induction false} UnusableReportForgets(id: string, r: Report)
    requires id != "" && r == Report(id, 1, 0, Usable(AV1))
    ensures After([PolledOnce(r)]).value.profile == Profile(Some(AV1), Server)
    ensures var unusable, silent := PolledOnce(r.(evidence := Unusable)), PolledOnce(r.(evidence := Silent));
            var events := [PolledOnce(r), unusable, silent];
            After(events).Some? && After(events).value.profile == Profile(None, Unreported)
  {
    var a, b, c := PolledOnce(r), PolledOnce(r.(evidence := Unusable)), PolledOnce(r.(evidence := Silent));
    assert [a, b, c][..2] == [a, b] && [a, b][..1] == [a] && [a][..0] == [];
    NextHas(None, a, id);
    NextHas(After([a]), b, id);
    NextHas(After([a, b]), c, id);
  }

  // ---- Any run, any sessions ----

  // An answer in the event, or the request, names this codec for this session.
  predicate Offers(e: Event, id: string, c: Codec) {
    && !e.Stopped?
    && (|| (e.report.sessionId == id && e.report.evidence == Usable(c))
        || (e.Polled? && e.direct.Some? && e.direct.value.sessionId == id && e.direct.value.evidence == Usable(c))
        || (e.Created? && e.report.sessionId == id && e.requested == Some(c)))
  }

  lemma {:induction false} BroughtIsOffered(e: Event)
    requires Brought(e).Ok? && Brought(e).value.profile.codec.Some?
    ensures Offers(e, Brought(e).value.sessionId, Brought(e).value.profile.codec.value)
  {
    match e
    case Created(_, _, _) =>
    case Polled(_, _, _) =>
    case Claimed(_, _) =>
    case AdReported(_) =>
  }

  /** No codec crosses session ids: a stored codec was named, for that very session, by an
      answer or by the request that created it. */
  lemma {:induction false} CodecWasOffered(events: seq<Event>)
    ensures var active := After(events);
            active.Some? && active.value.profile.codec.Some? ==>
              exists i :: 0 <= i < |events|
                && Offers(events[i], active.value.sessionId, active.value.profile.codec.value)
  {
    if events != [] && After(events).Some? && After(events).value.profile.codec.Some? {
      var rest, e := events[..|events| - 1], events[|events| - 1];
      var id, c := After(events).value.sessionId, After(events).value.profile.codec.value;
      CodecWasOffered(rest);
      if After(rest).Some? && After(rest).value.sessionId == id && After(rest).value.profile.codec == Some(c) {
        var i :| 0 <= i < |rest| && Offers(rest[i], id, c);
        assert Offers(events[i], id, c);
      } else {
        KeptFromBrought(After(rest), e);
        BroughtIsOffered(e);
        assert Offers(events[|events| - 1], id, c);
      }
    }
  }

  lemma {:induction false} KeptFromBrought(active: Option<Info>, e: Event)
    requires !e.Stopped? && Next(active, e).Some?
    ensures var next := Next(active, e).value;
            || (active.Some? && active.value.sessionId == next.sessionId
                && active.value.profile.codec == next.profile.codec)
            || (Brought(e).Ok? && Brought(e).value.sessionId == next.sessionId
                && Brought(e).value.profile.codec == next.profile.codec)
  {
  }

  // ---- Resumes ----

  // The answer a poll settles on, if it is an answer at all.
  function Seen(e: Event): Option<Info>
    requires e.Polled?
  {
    if InfoOf(e.report).Err? then None else Some(Directed(InfoOf(e.report).value, e.direct))
  }

  // A poll that ends a resume: the session is ready to stream, or can no longer be resumed.
  predicate Ends(e: Event) {
    e.Polled? && Seen(e).Some?
    && (IsReady(Seen(e).value.status, Seen(e).value.endpoints) || !IsLive(Seen(e).value.status))
  }

  function Continued(active: Option<Info>, events: seq<Event>): Option<Info> {
    if events == [] then active else Next(Continued(active, events[..|events| - 1]), events[|events| - 1])
  }

  // The last poll with an answer began while a resume was pending and did not end it.
  predicate LastGoesOn(polls: seq<Event>)
    requires forall i :: 0 <= i < |polls| ==> polls[i].Polled?
  {
    if polls == [] then true
    else
      var e := polls[|polls| - 1];
      if Seen(e).Some? then e.resuming && !Ends(e) else LastGoesOn(polls[..|polls| - 1])
  }

  // A claim of a session that can be resumed.
  predicate Claims(claim: Event) {
    claim.Claimed? && IsLive(claim.report.status) && claim.report.sessionId != ""
  }

  /** After a claim, and through any number of polls however they overlap, the resume is pending
      exactly when the last poll with an answer had noted it and did not end it; while it is
      pending the phase says so. */
  lemma {:induction false} PendingIsLast(start: Option<Info>, claim: Event, polls: seq<Event>)
    requires Claims(claim) && forall i :: 0 <= i < |polls| ==> polls[i].Polled?
    ensures var active := Continued(Next(start, claim), polls);
            && active.Some? && (Resuming(active) <==> LastGoesOn(polls))
            && (Resuming(active) ==> active.value.phase == "resuming")
  {
    if polls != [] {
      var rest, e := polls[..|polls| - 1], polls[|polls| - 1];
      PendingIsLast(start, claim, rest);
      PollProgress(Continued(Next(start, claim), rest), e);
    }
  }

  lemma {:induction false} PollProgress(active: Option<Info>, e: Event)
    requires e.Polled? && active.Some?
    ensures var next := Next(active, e);
            && next.Some?
            && (Resuming(next) <==> if Seen(e).Some? then e.resuming && !Ends(e) else Resuming(active))
            && (Resuming(next) ==> next.value.phase == "resuming" || (Seen(e).None? && next == active))
  {
  }

  // Polls one after the other: each begins once the one before it has stored its answer.
  ghost predicate InTurn(active: Option<Info>, polls: seq<Event>) {
    forall i :: 0 <= i < |polls| ==> polls[i].Polled? && polls[i].resuming == Resuming(Continued(active, polls[..i]))
  }

  /** When the polls come one after the other, the resume is pending exactly until the first poll
      that ends it. */
  lemma {:induction false} PendingUntilEnded(start: Option<Info>, claim: Event, polls: seq<Event>)
    requires Claims(claim) && InTurn(Next(start, claim), polls)
    ensures var active := Continued(Next(start, claim), polls);
            && active.Some?
            && (Resuming(active) <==> NoEnd(polls))
            && (Resuming(active) ==> active.value.phase == "resuming")
  {
    PendingIsLast(start, claim, polls);
    NoneEnds(start, claim, polls);
  }

  ghost predicate NoEnd(polls: seq<Event>) {
    forall i :: 0 <= i < |polls| ==> !Ends(polls[i])
  }

  lemma {:induction false} InTurnBefore(active: Option<Info>, polls: seq<Event>)
    requires InTurn(active, polls) && polls != []
    ensures InTurn(active, polls[..|polls| - 1])
    ensures polls[|polls| - 1].Polled?
    ensures polls[|polls| - 1].resuming == Resuming(Continued(active, polls[..|polls| - 1]))
  {
    var rest := polls[..|polls| - 1];
    assert forall i :: 0 <= i < |rest| ==> rest[i] == polls[i] && rest[..i] == polls[..i];
  }

  lemma {:induction false} NoneEnds(start: Option<Info>, claim: Event, polls: seq<Event>)
    requires Claims(claim) && InTurn(Next(start, claim), polls)
    ensures Resuming(Continued(Next(start, claim), polls)) <==> NoEnd(polls)
  {
    if polls != [] {
      var rest, e := polls[..|polls| - 1], polls[|polls| - 1];
      InTurnBefore(Next(start, claim), polls);
      NoneEnds(start, claim, rest);
      PendingIsLast(start, claim, rest);
      PollProgress(Continued(Next(start, claim), rest), e);
      NoEndSnoc(rest, e);
      assert polls == rest + [e];
    } else {
      PendingIsLast(start, claim, polls);
    }
  }

  lemma {:induction false} NoEndSnoc(rest: seq<Event>, e: Event)
    ensures NoEnd(rest + [e]) <==> NoEnd(rest) && !Ends(e)
  {
    assert forall i :: 0 <= i < |rest| ==> (rest + [e])[i] == rest[i];
    assert (rest + [e])[|rest|] == e;
  }

  /** Overlapping polls mislead: one that began before the claim drops the pending mark, and one
      that began during the resume brings it back after another has seen the session ready. */
  lemma {:induction false} OverlappingPollsMislead(start: Option<Info>, claim: Event, waiting: Report, ready: Report)
    requires Claims(claim) && waiting.sessionId != "" && ready.sessionId != ""
    requires waiting.status == 6 && ready.status == 2 && ready.endpoints > 0
    ensures !Resuming(Continued(Next(start, claim), [Polled(waiting, None, false)]))
    ensures !Resuming(Continued(Next(start, claim), [Polled(ready, None, true)]))
    ensures Resuming(Continued(Next(start, claim), [Polled(ready, None, true), Polled(waiting, None, true)]))
  {
    var late, end, stale := Polled(waiting, None, false), Polled(ready, None, true), Polled(waiting, None, true);
    PendingIsLast(start, claim, [late]);
    PendingIsLast(start, claim, [end]);
    PendingIsLast(start, claim, [end, stale]);
  }

  // ---- The service ----

  // The answer to a request to stop a session; `Unsent` when there is no address to send it to, or
  // the network fails.
  datatype StopAnswer = Unsent | Answered(status: nat)

  // A session that is gone already counts as stopped.
  predicate Accepted(answer: StopAnswer) {
    answer.Answered? && (200 <= answer.status < 300 || answer.status == 404)
  }

  function StopError(answer: StopAnswer): ServiceError {
    if answer.Unsent? then NotSent else Refused(answer.status)
  }

  function StopTarget(sessionId: Option<string>, active: Option<Info>): Option<string> {
    if sessionId.Some? && sessionId.value != "" then sessionId
    else if active.Some? then Some(active.value.sessionId)
    else None
  }

  // `retain` of all other ids, in their order.
  function Without(ids: seq<string>, id: string): (rest: seq<string>)
    ensures forall x :: x in rest <==> x in ids && x != id
    ensures |rest| <= |ids|
  {
    if ids == [] then [] else (if ids[0] == id then [] else [ids[0]]) + Without(ids[1..], id)
  }

  class CloudMatchService {
    var active: Option<Info>
    var discovered: set<string>                // ids of the sessions listed last
    var conflict: Option<seq<string>>          // ids of the sessions a refused creation named

    constructor ()
      ensures active.None? && discovered == {} && conflict.None?
    {
      active, discovered, conflict := None, {}, None;
    }

    // A caller is given back exactly what is now stored, or the error met.
    ghost predicate Answers(r: Result<Info, ServiceError>, brought: Result<Info, ServiceError>)
      reads this
    {
      if brought.Ok? then active.Some? && r == Ok(active.value) else r == brought
    }

    method StoreActive(info: Info) returns (stored: Info)
      modifies this`active
      ensures active == Some(stored) && stored == Kept(info, old(active))
    {
      stored := info;
      if active.Some? {
        var previous := active.value;
        stored := Preserved(stored, previous.sessionId, previous.profile);
        if previous.sessionId == info.sessionId && stored.keyboardLayout.None? {
          stored := stored.(keyboardLayout := previous.keyboardLayout);
        }
      }
      active := Some(stored);
    }

    method Create(report: Report, requested: Option<Codec>, layout: string) returns (r: Result<Info, ServiceError>)
      modifies this`active
      ensures active == Next(old(active), Created(report, requested, layout))
      ensures Answers(r, Brought(Created(report, requested, layout)))
    {
      var found := InfoOf(report);
      if found.Err? {
        return found;
      }
      var info := found.value.(keyboardLayout := Some(layout));
      info := Preserved(info, info.sessionId, Profile(requested, Request));
      var stored := StoreActive(info);
      // The phase is set again after the store; it is the same one.
      r := Ok(stored.(phase := SessionPhase(stored.status)));
    }

    method Poll(report: Report, direct: Option<Report>) returns (r: Result<Info, ServiceError>)
      modifies this`active
      ensures active == Next(old(active), Polled(report, direct, Resuming(old(active))))
      ensures Answers(r, Brought(Polled(report, direct, Resuming(old(active)))))
    {
      var resuming := Resuming(active);
      var found := InfoOf(report);
      if found.Err? {
        return found;
      }
      var info := found.value;
      if (info.status == 2 || info.status == 3) && direct.Some? && InfoOf(direct.value).Ok? {
        info := Preserved(InfoOf(direct.value).value, info.sessionId, info.profile);
      }
      info := info.(phase := SessionPhase(info.status));
      if resuming {
        info := Progressed(info);
      }
      var stored := StoreActive(info);
      r := Ok(stored);
    }

    method Claim(report: Report, layout: string) returns (r: Result<Info, ServiceError>)
      modifies this`active
      ensures active == Next(old(active), Claimed(report, layout))
      ensures Answers(r, Brought(Claimed(report, layout)))
    {
      if !IsLive(report.status) {
        return Err(NotResumable);
      }
      var resumed := 2 <= report.status <= 5;
      var found := InfoOf(report);
      if found.Err? {
        return found;
      }
      var info := found.value;
      if resumed {
        info := info.(keyboardLayout := Some(layout));
      }
      info := info.(resumePending := Some(true), phase := "resuming");
      var stored := StoreActive(info);
      r := Ok(stored);
    }

    method ReportAd(report: Report) returns (r: Result<Info, ServiceError>)
      modifies this`active
      ensures active == Next(old(active), AdReported(report))
      ensures Answers(r, Brought(AdReported(report)))
    {
      var found := InfoOf(report);
      if found.Err? {
        return found;
      }
      var stored := StoreActive(found.value.(phase := SessionPhase(found.value.status)));
      r := Ok(stored);
    }

    /** `stop`: the named session, or else the active one. Whatever session was stopped, the
        active one is forgotten. */
    method Stop(sessionId: Option<string>, answer: StopAnswer) returns (r: Result<Option<string>, ServiceError>)
      modifies this
      ensures var target := StopTarget(sessionId, old(active));
              var stopped := target.Some? && Accepted(answer);
              && r == (if stopped || target.None? then Ok(target) else Err(StopError(answer)))
              && active == (if stopped then Next(old(active), Stopped) else old(active))
              && discovered == (if stopped then old(discovered) - {target.value} else old(discovered))
              && conflict == (if stopped && old(conflict).Some? then Some(Without(old(conflict).value, target.value))
                              else old(conflict))
    {
      var target := sessionId;
      if target.None? || target.value == "" {
        target := if active.Some? then Some(active.value.sessionId) else None;
      }
      if target.None? {
        return Ok(None);
      }
      if answer.Unsent? {
        return Err(NotSent);
      }
      if !(200 <= answer.status < 300) && answer.status != 404 {
        return Err(Refused(answer.status));
      }
      active := None;
      discovered := discovered - {target.value};
      if conflict.Some? {
        conflict := Some(Without(conflict.value, target.value));
      }
      r := Ok(target);
    }
  }

  /** `report_ad` during a resume drops the pending mark: what follows is no longer a resume. */
  lemma {:induction false} AdReportForgetsResume(active: Info, report: Report)
    requires active.resumePending == Some(true) && report.sessionId != ""
    ensures var next := Next(Some(active), AdReported(report)); next.Some? && next.value.resumePending.None?
  {
  }
}
