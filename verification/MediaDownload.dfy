/** Downloads of sonar/connections.py: a byte budget shared by the downloads of
    one request, a size limit per response, and retries. */
module MediaDownload {
  import opened Options
  import opened Products
  import opened Words

  /** The environment settings, in MiB; a limit that is not positive is off. */
  datatype Limits = Limits(requestMb: int, mediaMb: int, retries: int)

  datatype Failure =
    | Timeout
    | ConnectionLost
    | BadPayload
    | Disconnected
    | HttpError(status: Option<int>)
    | ClientError(code: int)
    | Other

  datatype Error =
    | MediaTooLarge(max: int, got: int)
    | ResponseTooLarge(max: int, got: int)
    | RequestTooLarge(total: int)
    | Transport(failure: Failure)

  predicate SizeError(e: Error) {
    !e.Transport?
  }

  predicate IsRetryable(e: Error) {
    match e
    case Transport(Timeout) => true
    case Transport(ConnectionLost) => true
    case Transport(BadPayload) => true
    case Transport(Disconnected) => true
    case Transport(HttpError(status)) => status.Some? && status.value >= 500
    case Transport(ClientError(code)) => code >= 500
    case _ => false
  }

  function MaxAttempts(limits: Limits): (n: nat)
    ensures n >= 1 && (limits.retries >= 1 ==> n == limits.retries) && (limits.retries < 1 ==> n == 1)
  {
    if limits.retries < 1 then 1 else limits.retries
  }

  // ---------- limits ----------

  predicate Within(limit: Option<int>, n: int) {
    limit.Some? ==> n <= limit.value
  }

  function MediaLimit(limits: Limits): Option<int> {
    if limits.mediaMb <= 0 then None else Some(limits.mediaMb * MIB)
  }

  /** The tighter of the caller's limit and the media limit, and whether it is the latter. */
  function SizeLimit(limits: Limits, maxBytes: Option<int>): (r: (Option<int>, bool))
    ensures forall n :: Within(r.0, n) <==> Within(maxBytes, n) && (limits.mediaMb > 0 ==> n <= limits.mediaMb * 1048576)
    ensures r.0 == if r.1 then MediaLimit(limits) else maxBytes
    ensures r.1 ==> r.0.Some?
  {
    var media := MediaLimit(limits);
    if media.Some? && (maxBytes.None? || media.value <= maxBytes.value) then (media, true) else (maxBytes, false)
  }

  function TooLarge(limit: (Option<int>, bool), got: int): (e: Error)
    requires limit.0.Some?
    ensures SizeError(e)
  {
    if limit.1 then MediaTooLarge(limit.0.value, got) else ResponseTooLarge(limit.0.value, got)
  }

  /** The announced length, when there is one that parses, is checked first. */
  function LengthError(limit: (Option<int>, bool), contentLength: Option<int>): (e: Option<Error>)
    ensures e.Some? <==> contentLength.Some? && !Within(limit.0, contentLength.value)
    ensures e.Some? ==> e.value == TooLarge(limit, contentLength.value)
  {
    if contentLength.None? || limit.0.None? || contentLength.value <= limit.0.value then None
    else Some(TooLarge(limit, contentLength.value))
  }

  /** A size error names the limit that was passed: the media limit, if that is no
      looser than the caller's. */
  ghost predicate RightSizeError(limits: Limits, maxBytes: Option<int>, e: Error) {
    match e
    case MediaTooLarge(max, got) =>
      limits.mediaMb > 0 && max == limits.mediaMb * 1048576 < got && (maxBytes.Some? ==> max <= maxBytes.value)
    case ResponseTooLarge(max, got) =>
      maxBytes == Some(max) && max < got && (limits.mediaMb > 0 ==> max < limits.mediaMb * 1048576)
    case RequestTooLarge(total) => limits.requestMb > 0 && total > limits.requestMb * 1048576
    case Transport(_) => false
  }

  lemma TooLargeIsRight(limits: Limits, maxBytes: Option<int>, got: int)
    requires !Within(SizeLimit(limits, maxBytes).0, got)
    ensures RightSizeError(limits, maxBytes, TooLarge(SizeLimit(limits, maxBytes), got))
  {
  }

  // ---------- one download ----------

  datatype Phase = Connecting | Reading | Returned(body: Word) | Failed(error: Error)

  /** A download, with the chunks it accepted in each of its attempts so far. */
  datatype Download = Download(maxBytes: Option<int>, charged: bool, attempts: seq<seq<Word>>, received: int, phase: Phase)

  datatype Event =
    | Headers(contentLength: Option<int>)
    | Content(body: Word)
    | Chunk(data: Word)
    | End
    | Break(failure: Failure)

  function Fresh(maxBytes: Option<int>, charged: bool): Download {
    Download(maxBytes, charged, [[]], 0, Connecting)
  }

  function Current(d: Download): seq<Word>
    requires d.attempts != []
  {
    d.attempts[|d.attempts| - 1]
  }

  function WithCurrent(d: Download, chunks: seq<Word>, received: int): Download
    requires d.attempts != []
  {
    d.(attempts := d.attempts[..|d.attempts| - 1] + [chunks], received := received)
  }

  predicate Finished(d: Download) {
    d.phase.Returned? || d.phase.Failed?
  }

  /** Neither limit nor budget: the body is taken in one piece. */
  predicate Streams(limits: Limits, d: Download) {
    SizeLimit(limits, d.maxBytes).0.Some? || d.charged
  }

  predicate Enabled(limits: Limits, d: Download, event: Event) {
    match event
    case Headers(_) => d.phase.Connecting? && Streams(limits, d)
    case Content(_) => d.phase.Connecting? && !Streams(limits, d)
    case Chunk(_) => d.phase.Reading?
    case End => d.phase.Reading?
    case Break(_) => !Finished(d)
  }

  /** An error ends the download, or starts its next attempt afresh. */
  function Raise(limits: Limits, d: Download, e: Error): Download {
    if !IsRetryable(e) || |d.attempts| >= MaxAttempts(limits) then d.(phase := Failed(e))
    else d.(attempts := d.attempts + [[]], received := 0, phase := Connecting)
  }

  /** The budget after a charge, or none when the charge is refused. */
  function Charged(limits: Limits, used: int, size: int): Option<int> {
    if limits.requestMb <= 0 then Some(used)
    else if used + size > limits.requestMb * MIB then None
    else Some(used + size)
  }

  function TakeChunk(limits: Limits, used: int, d: Download, data: Word): (int, Download)
    requires d.attempts != []
  {
    var limit := SizeLimit(limits, d.maxBytes);
    var received := d.received + |data|;
    var taken := WithCurrent(d, Current(d) + [data], received);
    if data == [] then (used, d)
    else if !Within(limit.0, received) then (used, Raise(limits, d, TooLarge(limit, received)))
    else if !d.charged then (used, taken)
    else match Charged(limits, used, |data|) {
      case Some(used') => (used', taken)
      case None => (used, Raise(limits, d, RequestTooLarge(used + |data|)))
    }
  }

  function Act(limits: Limits, used: int, d: Download, event: Event): (int, Download)
    requires d.attempts != [] && Enabled(limits, d, event)
  {
    match event
    case Headers(contentLength) =>
      var e := LengthError(SizeLimit(limits, d.maxBytes), contentLength);
      (used, if e.Some? then Raise(limits, d, e.value) else d.(phase := Reading))
    case Content(body) => (used, WithCurrent(d, [body], |body|).(phase := Returned(body)))
    case Chunk(data) => TakeChunk(limits, used, d, data)
    case End => (used, d.(phase := Returned(Flatten(Current(d)))))
    case Break(failure) => (used, Raise(limits, d, Transport(failure)))
  }

  // ---------- what every step of a download keeps ----------

  function Total(attempts: seq<seq<Word>>): nat {
    if attempts == [] then 0 else Total(attempts[..|attempts| - 1]) + |Flatten(attempts[|attempts| - 1])|
  }

  /** Bytes of all attempts that count against the budget. */
  function Spent(d: Download): nat {
    if d.charged then Total(d.attempts) else 0
  }

  ghost predicate AttemptFits(limits: Limits, d: Download, j: int)
    requires 0 <= j < |d.attempts|
  {
    Flatten(d.attempts[j]) == [] || Within(SizeLimit(limits, d.maxBytes).0, |Flatten(d.attempts[j])|)
  }

  ghost predicate Sound(limits: Limits, d: Download) {
    && 1 <= |d.attempts| <= MaxAttempts(limits)
    && d.received == |Flatten(Current(d))|
    && (d.phase.Connecting? ==> Current(d) == [])
    && (forall j :: 0 <= j < |d.attempts| ==> AttemptFits(limits, d, j))
    && (d.phase.Returned? ==> d.phase.body == Flatten(Current(d)))
    && (d.phase.Failed? ==> !IsRetryable(d.phase.error) || |d.attempts| == MaxAttempts(limits))
  }

  predicate WithinBudget(limits: Limits, used: int) {
    limits.requestMb > 0 ==> used <= limits.requestMb * MIB
  }

  lemma TotalOneMore(attempts: seq<seq<Word>>, chunks: seq<Word>)
    ensures Total(attempts + [chunks]) == Total(attempts) + |Flatten(chunks)|
  {
    assert (attempts + [chunks])[..|attempts|] == attempts;
  }

  lemma RaiseKeepsSound(limits: Limits, d: Download, e: Error)
    requires Sound(limits, d)
    ensures Sound(limits, Raise(limits, d, e)) && Spent(Raise(limits, d, e)) == Spent(d)
  {
    var d' := Raise(limits, d, e);
    TotalOneMore(d.attempts, []);
    forall j | 0 <= j < |d'.attempts| ensures AttemptFits(limits, d', j) {
      if j < |d.attempts| { assert AttemptFits(limits, d, j); }
    }
  }

  lemma TakeSpends(d: Download, chunks: seq<Word>)
    requires d.attempts != []
    ensures Total(d.attempts[..|d.attempts| - 1] + [chunks]) == Total(d.attempts) - |Flatten(Current(d))| + |Flatten(chunks)|
  {
    hide Flatten;
    TotalOneMore(d.attempts[..|d.attempts| - 1], chunks);
  }

  lemma TakeFits(limits: Limits, d: Download, chunks: seq<Word>, received: int, phase: Phase, j: int)
    requires Sound(limits, d) && received == |Flatten(chunks)|
    requires received == 0 || Within(SizeLimit(limits, d.maxBytes).0, received)
    requires 0 <= j < |d.attempts|
    ensures AttemptFits(limits, WithCurrent(d, chunks, received).(phase := phase), j)
  {
    hide Flatten, SizeLimit;
    assert AttemptFits(limits, d, j);
  }

  lemma TakeKeepsSound(limits: Limits, d: Download, chunks: seq<Word>, received: int, phase: Phase)
    requires Sound(limits, d) && (phase.Returned? ==> phase.body == Flatten(chunks)) && (phase.Returned? || phase.Reading?)
    requires received == |Flatten(chunks)| && (received == 0 || Within(SizeLimit(limits, d.maxBytes).0, received))
    ensures var d' := WithCurrent(d, chunks, received).(phase := phase);
            Sound(limits, d') && (d.charged ==> Spent(d') == Spent(d) - d.received + received)
  {
    hide Flatten, Total, AttemptFits, SizeLimit, IsRetryable, MaxAttempts;
    var d' := WithCurrent(d, chunks, received).(phase := phase);
    TakeSpends(d, chunks);
    forall j | 0 <= j < |d'.attempts| ensures AttemptFits(limits, d', j) {
      TakeFits(limits, d, chunks, received, phase, j);
    }
  }

  /** A step keeps the download sound, stays within the budget, and moves the
      budget by exactly what the download spent. */
  lemma ActKeepsSound(limits: Limits, used: int, d: Download, event: Event)
    requires Sound(limits, d) && Enabled(limits, d, event)
    ensures var (used', d') := Act(limits, used, d, event);
            && Sound(limits, d') && (WithinBudget(limits, used) ==> WithinBudget(limits, used'))
            && used' == if limits.requestMb > 0 then used + Spent(d') - Spent(d) else used
  {
    match event
    case Headers(contentLength) =>
      var e := LengthError(SizeLimit(limits, d.maxBytes), contentLength);
      if e.Some? {
        RaiseKeepsSound(limits, d, e.value);
      } else {
        TakeKeepsSound(limits, d, Current(d), d.received, Reading);
        assert WithCurrent(d, Current(d), d.received) == d;
      }
    case Content(body) =>
      FlattenOneMore([], body);
      TakeKeepsSound(limits, d, [body], |body|, Returned(body));
    case Chunk(data) =>
      FlattenOneMore(Current(d), data);
      ChunkKeepsSound(limits, used, d, data);
    case End =>
      assert AttemptFits(limits, d, |d.attempts| - 1);
      TakeKeepsSound(limits, d, Current(d), d.received, Returned(Flatten(Current(d))));
      assert WithCurrent(d, Current(d), d.received) == d;
    case Break(failure) =>
      RaiseKeepsSound(limits, d, Transport(failure));
  }

  lemma ChunkKeepsSound(limits: Limits, used: int, d: Download, data: Word)
    requires Sound(limits, d) && d.phase.Reading?
    ensures var (used', d') := TakeChunk(limits, used, d, data);
            && Sound(limits, d') && (WithinBudget(limits, used) ==> WithinBudget(limits, used'))
            && used' == if limits.requestMb > 0 then used + Spent(d') - Spent(d) else used
  {
    hide AttemptFits, Flatten, Raise, IsRetryable, Total;
    var limit := SizeLimit(limits, d.maxBytes);
    var received := d.received + |data|;
    FlattenOneMore(Current(d), data);
    if data != [] {
      if !Within(limit.0, received) {
        RaiseKeepsSound(limits, d, TooLarge(limit, received));
      } else {
        RaiseKeepsSound(limits, d, RequestTooLarge(used + |data|));
        TakeKeepsSound(limits, d, Current(d) + [data], received, Reading);
      }
    }
  }

  /** Another attempt starts exactly when one is left and the transport failed by
      timeout, lost connection, broken payload, disconnection or a status of at
      least 500: a size error never starts one. */
  lemma OnlyTransportRetries(limits: Limits, used: int, d: Download, event: Event)
    requires d.attempts != [] && Enabled(limits, d, event)
    ensures var d' := Act(limits, used, d, event).1;
            |d'.attempts| > |d.attempts| <==>
              && event.Break? && |d.attempts| < limits.retries
              && match event.failure
                 case HttpError(status) => status.Some? && status.value >= 500
                 case ClientError(code) => code >= 500
                 case failure => failure.Timeout? || failure.ConnectionLost? || failure.BadPayload? || failure.Disconnected?
    ensures var d' := Act(limits, used, d, event).1;
            event.Chunk? && event.data != [] && (!Within(SizeLimit(limits, d.maxBytes).0, d.received + |event.data|)
              || (d.charged && Charged(limits, used, |event.data|).None?))
            ==> d'.phase.Failed? && SizeError(d'.phase.error) && d'.attempts == d.attempts
  {
  }

  // ---------- any interleaving ----------

  /** The downloads of one request, and its budget. */
  datatype State = State(used: int, downloads: seq<Download>)

  datatype Move = Begin(maxBytes: Option<int>, charged: bool) | At(i: int, event: Event)

  ghost predicate Possible(limits: Limits, s: State, move: Move) {
    move.At? ==> 0 <= move.i < |s.downloads| && s.downloads[move.i].attempts != []
                  && Enabled(limits, s.downloads[move.i], move.event)
  }

  ghost function Next(limits: Limits, s: State, move: Move): State
    requires Possible(limits, s, move)
  {
    match move
    case Begin(maxBytes, charged) => s.(downloads := s.downloads + [Fresh(maxBytes, charged)])
    case At(i, event) =>
      var (used, d) := Act(limits, s.used, s.downloads[i], event);
      State(used, s.downloads[i := d])
  }

  /** The moves can be made one after the other from s to s'. */
  ghost predicate Run(limits: Limits, s: State, moves: seq<Move>, s': State)
    decreases |moves|
  {
    if moves == [] then s' == s
    else Possible(limits, s, moves[0]) && Run(limits, Next(limits, s, moves[0]), moves[1..], s')
  }

  ghost function AllSpent(downloads: seq<Download>): nat {
    if downloads == [] then 0 else AllSpent(downloads[..|downloads| - 1]) + Spent(downloads[|downloads| - 1])
  }

  /** The budget holds exactly the bytes accepted in all attempts of all
      downloads charged to it, and never more than the request may take. */
  ghost predicate Accounted(limits: Limits, s: State) {
    && (forall i :: 0 <= i < |s.downloads| ==> Sound(limits, s.downloads[i]))
    && WithinBudget(limits, s.used)
    && s.used == if limits.requestMb > 0 then AllSpent(s.downloads) else 0
  }

  lemma {:induction false} AllSpentUpdated(downloads: seq<Download>, i: int, d: Download)
    requires 0 <= i < |downloads|
    ensures AllSpent(downloads[i := d]) == AllSpent(downloads) - Spent(downloads[i]) + Spent(d)
  {
    var n := |downloads| - 1;
    if i == n {
      assert downloads[i := d][..n] == downloads[..n];
    } else {
      AllSpentUpdated(downloads[..n], i, d);
      assert downloads[i := d][..n] == downloads[..n][i := d];
    }
  }

  lemma AllSpentOneMore(downloads: seq<Download>, d: Download)
    ensures AllSpent(downloads + [d]) == AllSpent(downloads) + Spent(d)
  {
    assert (downloads + [d])[..|downloads|] == downloads;
  }

  lemma FreshIsSound(limits: Limits, maxBytes: Option<int>, charged: bool)
    ensures Sound(limits, Fresh(maxBytes, charged)) && Spent(Fresh(maxBytes, charged)) == 0
  {
    TotalOneMore([], []);
    assert AttemptFits(limits, Fresh(maxBytes, charged), 0);
  }

  lemma NextKeepsAccounted(limits: Limits, s: State, move: Move)
    requires Accounted(limits, s) && Possible(limits, s, move)
    ensures Accounted(limits, Next(limits, s, move))
  {
    hide Sound, Spent, AllSpent, Act, Enabled, Fresh;
    match move
    case Begin(maxBytes, charged) =>
      FreshIsSound(limits, maxBytes, charged);
      AllSpentOneMore(s.downloads, Fresh(maxBytes, charged));
    case At(i, event) =>
      ActKeepsSound(limits, s.used, s.downloads[i], event);
      AllSpentUpdated(s.downloads, i, Act(limits, s.used, s.downloads[i], event).1);
  }

  /** Whatever the downloads, their retries and the order of their steps. */
  lemma {:induction false} RunIsAccounted(limits: Limits, s: State, moves: seq<Move>, s': State)
    requires Accounted(limits, s) && Run(limits, s, moves, s')
    ensures Accounted(limits, s')
    decreases moves
  {
    if moves != [] {
      NextKeepsAccounted(limits, s, moves[0]);
      RunIsAccounted(limits, Next(limits, s, moves[0]), moves[1..], s');
    }
  }

  /** What a request sees: the budget is the total of all attempts and within its
      limit, and each body is what its last attempt accepted, within both limits. */
  lemma BodiesAreWithinLimits(limits: Limits, moves: seq<Move>, s: State)
    requires Run(limits, State(0, []), moves, s)
    ensures limits.requestMb > 0 ==> s.used == AllSpent(s.downloads) <= limits.requestMb * MIB
    ensures forall i :: 0 <= i < |s.downloads| && s.downloads[i].phase.Returned? ==>
              var d := s.downloads[i];
              && d.attempts != [] && d.phase.body == Flatten(Current(d))
              && (d.phase.body == [] || (Within(d.maxBytes, |d.phase.body|) && Within(MediaLimit(limits), |d.phase.body|)))
  {
    RunIsAccounted(limits, State(0, []), moves, s);
    forall i | 0 <= i < |s.downloads| && s.downloads[i].phase.Returned?
      ensures var d := s.downloads[i];
              && d.attempts != [] && d.phase.body == Flatten(Current(d))
              && (d.phase.body == [] || (Within(d.maxBytes, |d.phase.body|) && Within(MediaLimit(limits), |d.phase.body|)))
    {
      var d := s.downloads[i];
      assert Sound(limits, d) && AttemptFits(limits, d, |d.attempts| - 1);
    }
  }

  /** A download that returned or failed stays as it is. */
  lemma {:induction false} FinishedStays(limits: Limits, s: State, moves: seq<Move>, s': State, i: int)
    requires Run(limits, s, moves, s') && 0 <= i < |s.downloads| && (s.downloads[i].phase.Returned? || s.downloads[i].phase.Failed?)
    ensures i < |s'.downloads| && s'.downloads[i] == s.downloads[i]
    decreases moves
  {
    if moves != [] {
      FinishedStays(limits, Next(limits, s, moves[0]), moves[1..], s', i);
    }
  }

  // ---------- the code ----------

  /** The events lead one download from d to d', and the budget from used to used'. */
  ghost predicate Replays(limits: Limits, used: int, d: Download, events: seq<Event>, used': int, d': Download)
    decreases |events|
  {
    if events == [] then used' == used && d' == d
    else d.attempts != [] && Enabled(limits, d, events[0])
         && var (u, e) := Act(limits, used, d, events[0]);
         Replays(limits, u, e, events[1..], used', d')
  }

  lemma {:induction false} ReplaysConcat(limits: Limits, used: int, d: Download, events: seq<Event>, used': int, d': Download,
                                         more: seq<Event>, used'': int, d'': Download)
    requires Replays(limits, used, d, events, used', d') && Replays(limits, used', d', more, used'', d'')
    ensures Replays(limits, used, d, events + more, used'', d'')
    decreases |events|
  {
    hide Act, Enabled;
    if events == [] {
      assert events + more == more;
    } else {
      var (u, e) := Act(limits, used, d, events[0]);
      ReplaysConcat(limits, u, e, events[1..], used', d', more, used'', d'');
      assert (events + more)[1..] == events[1..] + more;
    }
  }

  lemma ReplaysNone(limits: Limits, used: int, d: Download)
    ensures Replays(limits, used, d, [], used, d)
  {
  }

  lemma ReplaysOneMore(limits: Limits, used: int, d: Download, events: seq<Event>, used': int, d': Download, event: Event)
    requires Replays(limits, used, d, events, used', d') && d'.attempts != [] && Enabled(limits, d', event)
    ensures var (u, e) := Act(limits, used', d', event); Replays(limits, used, d, events + [event], u, e)
  {
    hide Act, Enabled;
    var (u, e) := Act(limits, used', d', event);
    assert Replays(limits, u, e, [event][1..], u, e);
    ReplaysConcat(limits, used, d, events, used', d', [event], u, e);
  }

  lemma {:induction false} ReplayKeepsSound(limits: Limits, used: int, d: Download, events: seq<Event>, used': int, d': Download)
    requires Replays(limits, used, d, events, used', d') && Sound(limits, d)
    ensures Sound(limits, d') && (WithinBudget(limits, used) ==> WithinBudget(limits, used'))
    ensures used' == if limits.requestMb > 0 then used + Spent(d') - Spent(d) else used
    decreases |events|
  {
    hide Sound, Act, Enabled, Spent;
    if events != [] {
      ActKeepsSound(limits, used, d, events[0]);
      var (u, e) := Act(limits, used, d, events[0]);
      ReplayKeepsSound(limits, u, e, events[1..], used', d');
    }
  }

  /** The events of one download, as moves of the machine. */
  lemma {:induction false} ReplayIsRun(limits: Limits, s: State, i: int, events: seq<Event>, used': int, d': Download)
    requires 0 <= i < |s.downloads| && Replays(limits, s.used, s.downloads[i], events, used', d')
    ensures Run(limits, s, seq(|events|, k requires 0 <= k < |events| => At(i, events[k])), State(used', s.downloads[i := d']))
    decreases |events|
  {
    hide Act, Enabled;
    var moves := seq(|events|, k requires 0 <= k < |events| => At(i, events[k]));
    if events == [] {
      assert s.downloads[i := d'] == s.downloads;
    } else {
      var next := Next(limits, s, moves[0]);
      ReplayIsRun(limits, next, i, events[1..], used', d');
      assert moves[1..] == seq(|events[1..]|, k requires 0 <= k < |events[1..]| => At(i, events[1..][k]));
      assert next.downloads[i := d'] == s.downloads[i := d'];
    }
  }

  /** What the network does with one attempt: it fails before the body, or sends
      chunks and then ends or fails. */
  datatype Reply = Refused(failure: Failure) | Response(contentLength: Option<int>, chunks: seq<Word>, broken: Option<Failure>)

  datatype Result = Ok(body: Word) | Err(error: Error)

  function Bytes(reply: Reply): nat {
    match reply
    case Refused(_) => 0
    case Response(_, chunks, _) => |Flatten(chunks)|
  }

  /** The part of n bytes that counts against the budget. */
  function Metered(limits: Limits, charged: bool, n: nat): nat {
    if charged && limits.requestMb > 0 then n else 0
  }

  /** So many bytes of a body pass neither the response limit nor the budget. */
  predicate BodyFits(limits: Limits, limit: Option<int>, charged: bool, used: int, n: nat) {
    n == 0 || (Within(limit, n) && (charged && limits.requestMb > 0 ==> used + n <= limits.requestMb * MIB))
  }

  /** Neither the announced length nor the body passes a limit. */
  predicate SizeFits(limits: Limits, maxBytes: Option<int>, charged: bool, used: int, reply: Reply) {
    var limit := SizeLimit(limits, maxBytes).0;
    match reply
    case Refused(_) => true
    case Response(contentLength, chunks, _) =>
      (contentLength.Some? ==> Within(limit, contentLength.value)) && BodyFits(limits, limit, charged, used, |Flatten(chunks)|)
  }

  ghost function ChunkEvents(sent: seq<Word>): (events: seq<Event>)
    ensures |events| == |sent|
  {
    seq(|sent|, i requires 0 <= i < |sent| => Chunk(sent[i]))
  }

  /** What a download can see of a reply, in order. */
  ghost function EventsOf(streams: bool, reply: Reply): seq<Event> {
    match reply
    case Refused(failure) => [Break(failure)]
    case Response(contentLength, chunks, broken) =>
      var last := if broken.Some? then Break(broken.value) else End;
      if streams then [Headers(contentLength)] + ChunkEvents(chunks) + [last]
      else if broken.Some? then [last]
      else [Content(Flatten(chunks))]
  }

  lemma {:induction false} FlattenGrows(sent: seq<Word>, i: nat)
    requires i <= |sent|
    ensures |Flatten(sent[..i])| <= |Flatten(sent)|
  {
    assert sent == sent[..i] + sent[i..];
    FlattenConcat(sent[..i], sent[i..]);
  }

  class Budget {
    var used: int

    constructor ()
      ensures used == 0
    {
      used := 0;
    }

    /** Charge the bytes, or refuse them and leave the budget as it was. */
    method Charge(limits: Limits, size: int) returns (e: Option<Error>)
      modifies this
      ensures e.None? <==> limits.requestMb <= 0 || old(used) + size <= limits.requestMb * 1048576
      ensures e.Some? ==> e.value == RequestTooLarge(old(used) + size)
      ensures used == if limits.requestMb <= 0 || e.Some? then old(used) else old(used) + size
    {
      if limits.requestMb <= 0 {
        return None;
      }
      var limit := limits.requestMb * MIB;
      var received := used + size;
      if received > limit {
        return Some(RequestTooLarge(received));
      }
      used := received;
      return None;
    }
  }

  predicate Charges(budget: Budget?) {
    budget != null
  }

  ghost function UsedOf(budget: Budget?): int
    reads budget
  {
    if budget == null then 0 else budget.used
  }

  /** One chunk, as the machine takes it. */
  method AppendChunk(limits: Limits, chunks: seq<Word>, chunk: Word, received: int, limit: (Option<int>, bool), budget: Budget?,
                     ghost d: Download)
    returns (e: Option<Error>, chunks': seq<Word>, received': int)
    requires d.attempts != [] && d.phase.Reading? && Current(d) == chunks && d.received == received
    requires limit == SizeLimit(limits, d.maxBytes) && d.charged == (budget != null)
    modifies budget
    ensures Act(limits, old(UsedOf(budget)), d, Chunk(chunk))
         == (UsedOf(budget), if e.Some? then Raise(limits, d, e.value) else WithCurrent(d, chunks', received'))
    ensures e.None? <==>
              || chunk == []
              || (&& Within(limit.0, received + |chunk|)
                  && (budget != null && limits.requestMb > 0 ==> old(UsedOf(budget)) + |chunk| <= limits.requestMb * MIB))
    ensures e.Some? ==> SizeError(e.value) && RightSizeError(limits, d.maxBytes, e.value)
    ensures e.None? ==> Flatten(chunks') == Flatten(chunks) + chunk && received' == received + |chunk|
    ensures UsedOf(budget) == old(UsedOf(budget)) + if e.None? then Metered(limits, budget != null, |chunk|) else 0
  {
    e, chunks', received' := None, chunks, received;
    if chunk == [] {
      assert WithCurrent(d, chunks, received) == d;
      return;
    }
    received' := received + |chunk|;
    if limit.0.Some? && received' > limit.0.value {
      TooLargeIsRight(limits, d.maxBytes, received');
      return Some(TooLarge(limit, received')), chunks, received';
    }
    if budget != null {
      e := budget.Charge(limits, |chunk|);
      if e.Some? {
        return;
      }
    }
    chunks' := chunks + [chunk];
    FlattenOneMore(chunks, chunk);
  }

  /** The loop over the chunks of a response. */
  method ReadChunks(limits: Limits, sent: seq<Word>, limit: (Option<int>, bool), budget: Budget?, ghost d: Download)
    returns (e: Option<Error>, chunks: seq<Word>, ghost last: Download, ghost events: seq<Event>)
    requires d.phase.Reading? && d.attempts != [] && Current(d) == [] && d.received == 0
    requires limit == SizeLimit(limits, d.maxBytes) && d.charged == (budget != null)
    modifies budget
    ensures Replays(limits, old(UsedOf(budget)), d, events, UsedOf(budget), if e.Some? then Raise(limits, last, e.value) else last)
    ensures last.maxBytes == d.maxBytes && last.charged == d.charged && |last.attempts| == |d.attempts|
    ensures e.None? <==> BodyFits(limits, limit.0, budget != null, old(UsedOf(budget)), |Flatten(sent)|)
    ensures e.Some? ==> SizeError(e.value) && RightSizeError(limits, d.maxBytes, e.value) && events <= ChunkEvents(sent)
    ensures e.None? ==> last.phase.Reading? && Current(last) == chunks && Flatten(chunks) == Flatten(sent)
    ensures e.None? ==> events == ChunkEvents(sent)
    ensures e.None? ==> UsedOf(budget) == old(UsedOf(budget)) + Metered(limits, budget != null, |Flatten(sent)|)
  {
    hide TakeChunk, Raise, SizeLimit, Replays, Act, BodyFits, Metered, Within, ChunkEvents, Flatten, RightSizeError;
    e, chunks, last, events := None, [], d, [];
    ReplaysNone(limits, UsedOf(budget), d);
    NothingSent(limits, limit.0, budget != null, UsedOf(budget), sent);
    var received := 0;
    for i := 0 to |sent|
      invariant last.phase.Reading? && |last.attempts| == |d.attempts| && Current(last) == chunks && last.received == received
      invariant last.maxBytes == d.maxBytes && last.charged == d.charged && e.None?
      invariant Replays(limits, old(UsedOf(budget)), d, events, UsedOf(budget), last)
      invariant Flatten(chunks) == Flatten(sent[..i]) && received == |Flatten(chunks)|
      invariant events == ChunkEvents(sent)[..i]
      invariant UsedOf(budget) == old(UsedOf(budget)) + Metered(limits, budget != null, |Flatten(sent[..i])|)
      invariant BodyFits(limits, limit.0, budget != null, old(UsedOf(budget)), |Flatten(sent[..i])|)
    {
      ghost var before := UsedOf(budget);
      FlattenOneMore(sent[..i], sent[i]);
      assert sent[..i + 1] == sent[..i] + [sent[i]];
      FlattenGrows(sent, i + 1);
      ChunkSent(limits, limit.0, budget != null, old(UsedOf(budget)), sent, i, received);
      e, chunks, received := AppendChunk(limits, chunks, sent[i], received, limit, budget, last);
      ReplaysOneMore(limits, old(UsedOf(budget)), d, events, before, last, Chunk(sent[i]));
      events := events + [Chunk(sent[i])];
      if e.Some? {
        return;
      }
      last := WithCurrent(last, chunks, received);
    }
    assert sent[..|sent|] == sent;
    AllSent(sent);
  }

  lemma NothingSent(limits: Limits, limit: Option<int>, charged: bool, used: int, sent: seq<Word>)
    ensures Flatten([]) == Flatten(sent[..0]) == [] && ChunkEvents(sent)[..0] == [] && Metered(limits, charged, 0) == 0
    ensures BodyFits(limits, limit, charged, used, 0)
  {
  }

  /** One more chunk fits, or no longer body that begins so does. */
  lemma ChunkSent(limits: Limits, limit: Option<int>, charged: bool, used: int, sent: seq<Word>, i: nat, n: nat)
    requires i < |sent| && BodyFits(limits, limit, charged, used, n)
    requires n + |sent[i]| <= |Flatten(sent)|
    ensures ChunkEvents(sent)[..i] + [Chunk(sent[i])] == ChunkEvents(sent)[..i + 1]
    ensures Metered(limits, charged, n + |sent[i]|) == Metered(limits, charged, n) + Metered(limits, charged, |sent[i]|)
    ensures var fits := || sent[i] == []
                        || (&& Within(limit, n + |sent[i]|)
                            && (charged && limits.requestMb > 0 ==>
                                  used + Metered(limits, charged, n) + |sent[i]| <= limits.requestMb * MIB));
            && (fits ==> BodyFits(limits, limit, charged, used, n + |sent[i]|))
            && (!fits ==> !BodyFits(limits, limit, charged, used, |Flatten(sent)|))
  {
    hide Flatten;
  }

  lemma AllSent(sent: seq<Word>)
    ensures ChunkEvents(sent)[..|sent|] == ChunkEvents(sent)
  {
  }

  /** The download after an attempt that gave the result. */
  ghost function Settled(limits: Limits, d: Download, r: Result): Download {
    match r
    case Ok(body) => d.(phase := Returned(body))
    case Err(e) => Raise(limits, d, e)
  }

  ghost predicate SizeFails(r: Result) {
    r.Err? && SizeError(r.error)
  }

  /** The result of an attempt is decided by the reply: a size error, naming the
      limit, exactly when the reply passes one, else its failure, else its whole body. */
  ghost predicate Answers(limits: Limits, maxBytes: Option<int>, charged: bool, used: int, reply: Reply, r: Result) {
    && (SizeFails(r) <==> !SizeFits(limits, maxBytes, charged, used, reply))
    && (SizeFails(r) ==> RightSizeError(limits, maxBytes, r.error))
    && match r
       case Ok(body) => Delivers(reply, body)
       case Err(e) => e.Transport? ==> FailsWith(reply, e.failure)
  }

  /** The download has seen a prefix of the reply, and all of it unless a limit was passed. */
  ghost predicate Consumes(streams: bool, reply: Reply, r: Result, events: seq<Event>) {
    events <= EventsOf(streams, reply) && (!SizeFails(r) ==> events == EventsOf(streams, reply))
  }

  ghost predicate FailsWith(reply: Reply, failure: Failure) {
    match reply
    case Refused(f) => f == failure
    case Response(_, _, broken) => broken == Some(failure)
  }

  ghost predicate FailsRetryably(reply: Reply) {
    exists failure :: FailsWith(reply, failure) && IsRetryable(Transport(failure))
  }

  ghost predicate Delivers(reply: Reply, body: Word) {
    reply.Response? && reply.broken.None? && body == Flatten(reply.chunks)
  }

  lemma RefusedReplays(limits: Limits, used: int, d: Download, failure: Failure)
    requires d.phase.Connecting? && d.attempts != []
    ensures Replays(limits, used, d, [Break(failure)], used, Raise(limits, d, Transport(failure)))
  {
    ReplaysNone(limits, used, Raise(limits, d, Transport(failure)));
  }

  /** Read one response. The whole body is returned, or a limit was passed, or
      the transport failed; the download has gone on from d by the events. */
  method ReadResponseBytes(limits: Limits, response: Reply, maxBytes: Option<int>, budget: Budget?, ghost d: Download)
    returns (r: Result, ghost last: Download, ghost events: seq<Event>)
    requires response.Response?
    requires d.phase.Connecting? && d.attempts != [] && Current(d) == [] && d.received == 0
    requires d.maxBytes == maxBytes && d.charged == (budget != null)
    modifies budget
    ensures Replays(limits, old(UsedOf(budget)), d, events, UsedOf(budget), Settled(limits, last, r))
    ensures last.maxBytes == d.maxBytes && last.charged == d.charged && |last.attempts| == |d.attempts|
    ensures Answers(limits, maxBytes, budget != null, old(UsedOf(budget)), response, r)
    ensures Consumes(Streams(limits, d), response, r, events)
    ensures !SizeFails(r) ==> UsedOf(budget) == old(UsedOf(budget)) + Metered(limits, budget != null, Bytes(response))
  {
    hide TakeChunk, Raise, LengthError, SizeLimit, ChunkEvents;
    var limit := SizeLimit(limits, maxBytes);
    last, events := d, [];
    if limit.0.None? && budget == null {
      if response.broken.Some? {
        r, events := Err(Transport(response.broken.value)), [Break(response.broken.value)];
      } else {
        r, events := Ok(Flatten(response.chunks)), [Content(Flatten(response.chunks))];
        last := WithCurrent(d, [r.body], |r.body|);
      }
      return;
    }
    var e := LengthError(limit, response.contentLength);
    if e.Some? {
      TooLargeIsRight(limits, maxBytes, response.contentLength.value);
      return Err(e.value), last, [Headers(response.contentLength)];
    }
    last := d.(phase := Reading);
    ghost var reading, used := last, UsedOf(budget);
    var chunks: seq<Word>;
    e, chunks, last, events := ReadChunks(limits, response.chunks, limit, budget, reading);
    assert Replays(limits, used, d, [Headers(response.contentLength)], used, reading);
    ghost var read := if e.Some? then Raise(limits, last, e.value) else last;
    ReplaysConcat(limits, used, d, [Headers(response.contentLength)], used, reading, events, UsedOf(budget), read);
    events := [Headers(response.contentLength)] + events;
    if e.Some? {
      return Err(e.value), last, events;
    }
    ghost var final := if response.broken.Some? then Break(response.broken.value) else End;
    ReplaysOneMore(limits, used, d, events, UsedOf(budget), last, final);
    events := events + [final];
    r := if response.broken.Some? then Err(Transport(response.broken.value)) else Ok(Flatten(chunks));
  }

  function Pow4(n: nat): nat {
    if n == 0 then 1 else 4 * Pow4(n - 1)
  }

  /** Each attempt waits four times as long as the one before. */
  function AttemptTimeout(base: Option<real>, attempt: nat): Option<real> {
    if base.None? then None else Some(base.value * Pow4(attempt) as real)
  }

  lemma TimeoutsGrow(base: Option<real>, attempt: nat)
    ensures AttemptTimeout(base, 0) == base
    ensures AttemptTimeout(base, attempt + 1) ==
              match AttemptTimeout(base, attempt) case None => None case Some(t) => Some(4.0 * t)
  {
    if base.Some? {
      OneTime(base.value);
      FourTimes(base.value, Pow4(attempt));
    }
  }

  lemma OneTime(t: real)
    ensures t * 1 as real == t
  {
  }

  lemma FourTimes(t: real, n: nat)
    ensures t * (4 * n) as real == 4.0 * (t * n as real)
  {
    assert (4 * n) as real == 4.0 * n as real;
    Associates(t, n as real);
  }

  lemma Associates(t: real, x: real)
    ensures t * (4.0 * x) == 4.0 * (t * x)
  {
  }

  /** One attempt: connect, then read. */
  method Attempt(limits: Limits, reply: Reply, maxBytes: Option<int>, budget: Budget?, ghost d: Download)
    returns (r: Result, ghost last: Download, ghost events: seq<Event>)
    requires d.phase.Connecting? && d.attempts != [] && Current(d) == [] && d.received == 0
    requires d.maxBytes == maxBytes && d.charged == (budget != null)
    modifies budget
    ensures Replays(limits, old(UsedOf(budget)), d, events, UsedOf(budget), Settled(limits, last, r))
    ensures last.maxBytes == d.maxBytes && last.charged == d.charged && |last.attempts| == |d.attempts|
    ensures Answers(limits, maxBytes, budget != null, old(UsedOf(budget)), reply, r)
    ensures Consumes(Streams(limits, d), reply, r, events)
    ensures !SizeFails(r) ==> UsedOf(budget) == old(UsedOf(budget)) + Metered(limits, budget != null, Bytes(reply))
  {
    hide Act, Enabled, Replays;
    if reply.Refused? {
      r, last, events := Err(Transport(reply.failure)), d, [Break(reply.failure)];
      RefusedReplays(limits, UsedOf(budget), d, reply.failure);
    } else {
      r, last, events := ReadResponseBytes(limits, reply, maxBytes, budget, d);
    }
  }

  /** The budget once the first k replies have been read in full. */
  ghost function UsedBefore(limits: Limits, charged: bool, used: int, replies: seq<Reply>, k: nat): int
    requires k <= |replies|
  {
    if k == 0 then used
    else UsedBefore(limits, charged, used, replies, k - 1) + Metered(limits, charged, Bytes(replies[k - 1]))
  }

  /** Reply k passes no limit and fails in a way that is retried. */
  ghost predicate Retried(limits: Limits, maxBytes: Option<int>, charged: bool, used: int, replies: seq<Reply>, k: int) {
    && 0 <= k < |replies| && FailsRetryably(replies[k])
    && SizeFits(limits, maxBytes, charged, UsedBefore(limits, charged, used, replies, k), replies[k])
  }

  lemma RetriedAfter(limits: Limits, maxBytes: Option<int>, charged: bool, used: int, replies: seq<Reply>, k: nat, r: Result)
    requires k < |replies| && r.Err? && IsRetryable(r.error)
    requires Answers(limits, maxBytes, charged, UsedBefore(limits, charged, used, replies, k), replies[k], r)
    ensures Retried(limits, maxBytes, charged, used, replies, k) && !SizeFails(r)
  {
    assert FailsWith(replies[k], r.error.failure) && r.error == Transport(r.error.failure);
  }

  lemma PermanentIff(f: Failure)
    ensures !IsRetryable(Transport(f)) <==>
              f.Other? || (f.HttpError? && (f.status.None? || f.status.value < 500)) || (f.ClientError? && f.code < 500)
  {
  }

  lemma OneFailure(reply: Reply, f: Failure, g: Failure)
    requires FailsWith(reply, f) && FailsWith(reply, g)
    ensures f == g
  {
  }

  /** A failing reply that passes no limit makes the attempt fail with it. */
  lemma FailureIsAnswer(limits: Limits, maxBytes: Option<int>, charged: bool, used: int, reply: Reply, r: Result, f: Failure)
    requires Answers(limits, maxBytes, charged, used, reply, r) && FailsWith(reply, f)
    ensures SizeFits(limits, maxBytes, charged, used, reply) ==> r == Err(Transport(f))
  {
    hide SizeFits, RightSizeError, Flatten;
    assert r.Err? && r.error.Transport? ==> r.error.failure == f;
  }

  lemma RetriedFails(limits: Limits, maxBytes: Option<int>, charged: bool, used: int, replies: seq<Reply>, k: nat, f: Failure)
    requires Retried(limits, maxBytes, charged, used, replies, k) && FailsWith(replies[k], f)
    ensures IsRetryable(Transport(f))
  {
    hide IsRetryable;
    var g :| FailsWith(replies[k], g) && IsRetryable(Transport(g));
    OneFailure(replies[k], f, g);
  }

  lemma FailuresDecide(limits: Limits, maxBytes: Option<int>, charged: bool, used: int, replies: seq<Reply>, n: nat, r: Result)
    requires 1 <= n <= |replies|
    requires forall k :: 0 <= k < n - 1 ==> Retried(limits, maxBytes, charged, used, replies, k)
    requires Answers(limits, maxBytes, charged, UsedBefore(limits, charged, used, replies, n - 1), replies[n - 1], r)
    requires r.Err? && IsRetryable(r.error) ==> n == MaxAttempts(limits)
    ensures forall k: nat, f :: k < n && FailsWith(replies[k], f)
              && (f.Other? || (f.HttpError? && (f.status.None? || f.status.value < 500)) || (f.ClientError? && f.code < 500))
              ==> && k == n - 1
                  && (SizeFits(limits, maxBytes, charged, UsedBefore(limits, charged, used, replies, k), replies[k])
                      ==> r == Err(Transport(f)))
    ensures forall k: nat, f :: k < n && FailsWith(replies[k], f)
              && (f.Timeout? || f.ConnectionLost? || f.BadPayload? || f.Disconnected?
                  || (f.HttpError? && f.status.Some? && f.status.value >= 500) || (f.ClientError? && f.code >= 500))
              && k + 1 < limits.retries
              && SizeFits(limits, maxBytes, charged, UsedBefore(limits, charged, used, replies, k), replies[k])
              ==> k + 1 < n
  {
    hide Answers, Retried, SizeFits, UsedBefore, FailsWith, IsRetryable;
    forall k: nat, f | k < n && FailsWith(replies[k], f)
      ensures (f.Other? || (f.HttpError? && (f.status.None? || f.status.value < 500)) || (f.ClientError? && f.code < 500))
              ==> k == n - 1
      ensures k == n - 1 && SizeFits(limits, maxBytes, charged, UsedBefore(limits, charged, used, replies, k), replies[k])
              ==> && r == Err(Transport(f))
                  && (k + 1 < limits.retries ==>
                        f.Other? || (f.HttpError? && (f.status.None? || f.status.value < 500)) || (f.ClientError? && f.code < 500))
    {
      PermanentIff(f);
      if k < n - 1 {
        RetriedFails(limits, maxBytes, charged, used, replies, k, f);
      } else {
        FailureIsAnswer(limits, maxBytes, charged, UsedBefore(limits, charged, used, replies, k), replies[k], r, f);
      }
    }
  }

  lemma TimeoutsAre(base: Option<real>, timeouts: seq<Option<real>>)
    requires timeouts != [] && forall k :: 0 <= k < |timeouts| ==> timeouts[k] == AttemptTimeout(base, k)
    ensures timeouts[0] == base
    ensures forall k :: 0 < k < |timeouts| ==> timeouts[k] == match timeouts[k - 1] case None => None case Some(t) => Some(4.0 * t)
  {
    hide AttemptTimeout;
    TimeoutsGrow(base, 0);
    forall k | 0 < k < |timeouts|
      ensures timeouts[k] == match timeouts[k - 1] case None => None case Some(t) => Some(4.0 * t)
    {
      TimeoutsGrow(base, k - 1);
    }
  }

  /** The retry loop around one download. Every attempt but the last met a
      retryable transport failure; the last one decided the result. */
  method SyncRetry(limits: Limits, replies: seq<Reply>, maxBytes: Option<int>, budget: Budget?, baseTimeout: Option<real>)
    returns (r: Result, timeouts: seq<Option<real>>, ghost d: Download, ghost events: seq<Event>)
    requires |replies| >= MaxAttempts(limits)
    modifies budget
    ensures Replays(limits, old(UsedOf(budget)), Fresh(maxBytes, budget != null), events, UsedOf(budget), d)
    ensures d.phase == match r case Ok(body) => Returned(body) case Err(e) => Failed(e)
    ensures 1 <= |timeouts| == |d.attempts| <= MaxAttempts(limits)
    ensures |timeouts| <= if limits.retries < 1 then 1 else limits.retries
    // each attempt waits four times as long as the one before
    ensures timeouts[0] == baseTimeout
    ensures forall k :: 0 < k < |timeouts| ==> timeouts[k] == match timeouts[k - 1] case None => None case Some(t) => Some(4.0 * t)
    // a client error, a missing status or any other failure ends the download
    ensures forall k: nat, f :: k < |timeouts| && FailsWith(replies[k], f)
              && (f.Other? || (f.HttpError? && (f.status.None? || f.status.value < 500)) || (f.ClientError? && f.code < 500))
              ==> && k == |timeouts| - 1
                  && (SizeFits(limits, maxBytes, Charges(budget),
                               UsedBefore(limits, Charges(budget), old(UsedOf(budget)), replies, k), replies[k])
                      ==> r == Err(Transport(f)))
    // a timeout, a lost connection or a server error is tried again while attempts are left
    ensures forall k: nat, f :: k < |timeouts| && FailsWith(replies[k], f)
              && (f.Timeout? || f.ConnectionLost? || f.BadPayload? || f.Disconnected?
                  || (f.HttpError? && f.status.Some? && f.status.value >= 500) || (f.ClientError? && f.code >= 500))
              && k + 1 < limits.retries
              && SizeFits(limits, maxBytes, Charges(budget),
                          UsedBefore(limits, Charges(budget), old(UsedOf(budget)), replies, k), replies[k])
              ==> k + 1 < |timeouts|
    // every reply but the last fits and fails retryably; the last one decides
    ensures forall k :: 0 <= k < |timeouts| - 1 ==> Retried(limits, maxBytes, Charges(budget), old(UsedOf(budget)), replies, k)
    ensures Answers(limits, maxBytes, Charges(budget),
                    UsedBefore(limits, Charges(budget), old(UsedOf(budget)), replies, |timeouts| - 1), replies[|timeouts| - 1], r)
    ensures r.Err? && IsRetryable(r.error) ==> |timeouts| == MaxAttempts(limits)
    ensures Sound(limits, d) && UsedOf(budget) == old(UsedOf(budget)) + if limits.requestMb > 0 then Spent(d) else 0
    ensures WithinBudget(limits, old(UsedOf(budget))) ==> WithinBudget(limits, UsedOf(budget))
  {
    hide Act, Enabled, Replays, FailsWith, Delivers, AttemptTimeout, Sound, Spent, WithinBudget, SizeFits, Consumes, Metered;
    hide Answers, Retried, SizeFails, RightSizeError, IsRetryable;
    var maxRetries := MaxAttempts(limits);
    timeouts, d, events := [], Fresh(maxBytes, budget != null), [];
    ReplaysNone(limits, UsedOf(budget), d);
    var attempt := 0;
    while true
      invariant attempt < maxRetries && |timeouts| == attempt && |d.attempts| == attempt + 1
      invariant d.phase.Connecting? && Current(d) == [] && d.received == 0
      invariant d.maxBytes == maxBytes && d.charged == (budget != null)
      invariant Replays(limits, old(UsedOf(budget)), Fresh(maxBytes, budget != null), events, UsedOf(budget), d)
      invariant forall k :: 0 <= k < attempt ==> timeouts[k] == AttemptTimeout(baseTimeout, k)
      invariant UsedOf(budget) == UsedBefore(limits, Charges(budget), old(UsedOf(budget)), replies, attempt)
      invariant forall k :: 0 <= k < attempt ==> Retried(limits, maxBytes, Charges(budget), old(UsedOf(budget)), replies, k)
      decreases maxRetries - attempt
    {
      timeouts := timeouts + [AttemptTimeout(baseTimeout, attempt)];
      ghost var used, start, last, more := UsedOf(budget), d, d, [];
      r, last, more := Attempt(limits, replies[attempt], maxBytes, budget, d);
      d := Settled(limits, last, r);
      ReplaysConcat(limits, old(UsedOf(budget)), Fresh(maxBytes, budget != null), events, used, start, more, UsedOf(budget), d);
      events := events + more;
      if r.Ok? || !IsRetryable(r.error) || attempt + 1 >= maxRetries {
        FreshIsSound(limits, maxBytes, budget != null);
        ReplayKeepsSound(limits, old(UsedOf(budget)), Fresh(maxBytes, budget != null), events, UsedOf(budget), d);
        FailuresDecide(limits, maxBytes, Charges(budget), old(UsedOf(budget)), replies, |timeouts|, r);
        TimeoutsAre(baseTimeout, timeouts);
        return;
      }
      RetriedAfter(limits, maxBytes, Charges(budget), old(UsedOf(budget)), replies, attempt, r);
      attempt := attempt + 1;
    }
  }
}
