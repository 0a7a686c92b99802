/** Transcript ingestion: validating turns, pairing or windowing them into envelopes, and the
    accounting of the ingest loop. */
module Transcript {
  import opened Options
  import opened Text
  import opened Sequences

  datatype Role = User | Assistant | Other

  /** `role` and `content` are the first non-empty of the spellings the source accepts. */
  datatype RawTurn = NotObject | Turn(role: string, content: string, speaker: string)

  datatype Utterance = Utterance(index: nat, role: Role, content: string, speaker: string)

  datatype Failure =
    | TurnsRequired
    | LimitExceeded
    | TurnMustBeObject(at: nat)
    | UnsupportedRole(at: nat)
    | ContentRequired(at: nat)
    | GroupEmpty

  datatype Result<T> = Ok(value: T) | Err(failure: Failure)

  datatype Pair = Pair(user: Option<Utterance>, assistant: Option<Utterance>) {
    function Turns(): seq<Utterance> {
      (if user.Some? then [user.value] else []) + (if assistant.Some? then [assistant.value] else [])
    }
  }

  /** `start` and `end` are the source indexes of the first and last turn. */
  datatype Envelope = Envelope(start: nat, end: nat, turns: seq<Utterance>)

  // ---------------------------------------------------------------- validation

  /** What is wrong with the first bad turn from k on, if any; a role is checked before content. */
  function FirstFault(aliases: map<string, Role>, raw: seq<RawTurn>, k: nat): Option<Failure>
    requires k <= |raw|
    decreases |raw| - k
  {
    if k == |raw| then None
    else if raw[k].NotObject? then Some(TurnMustBeObject(k))
    else if Norm(raw[k].role) !in aliases then Some(UnsupportedRole(k))
    else if Strip(raw[k].content) == "" then Some(ContentRequired(k))
    else FirstFault(aliases, raw, k + 1)
  }

  function UtteranceOf(aliases: map<string, Role>, k: nat, t: RawTurn): Utterance
    requires t.Turn? && Norm(t.role) in aliases
  {
    Utterance(k, aliases[Norm(t.role)], Strip(t.content), Strip(t.speaker))
  }

  /** Dyadic reading: every turn is kept at its own index, or the first fault is reported. */
  method ReadUtterances(aliases: map<string, Role>, raw: seq<RawTurn>) returns (r: Result<seq<Utterance>>)
    ensures r.Err? <==> FirstFault(aliases, raw, 0).Some?
    ensures r.Err? ==> Some(r.failure) == FirstFault(aliases, raw, 0)
    ensures r.Ok? ==> |r.value| == |raw|
    ensures r.Ok? ==> forall i :: 0 <= i < |raw| ==>
              raw[i].Turn? && Norm(raw[i].role) in aliases && r.value[i] == UtteranceOf(aliases, i, raw[i])
  {
    hide Norm, Strip;
    var us := [];
    var k := 0;
    while k < |raw|
      invariant 0 <= k == |us| <= |raw|
      invariant FirstFault(aliases, raw, k) == FirstFault(aliases, raw, 0)
      invariant forall i :: 0 <= i < k ==>
                  raw[i].Turn? && Norm(raw[i].role) in aliases && us[i] == UtteranceOf(aliases, i, raw[i])
    {
      if raw[k].NotObject? { return Err(TurnMustBeObject(k)); }
      if Norm(raw[k].role) !in aliases { return Err(UnsupportedRole(k)); }
      if Strip(raw[k].content) == "" { return Err(ContentRequired(k)); }
      us := us + [UtteranceOf(aliases, k, raw[k])];
      k := k + 1;
    }
    r := Ok(us);
  }

  // ---------------------------------------------------------------- pairing

  /** A user turn takes the assistant turn right behind it; every other turn stands alone. */
  function Pairs(us: seq<Utterance>): seq<Pair>
    decreases |us|
  {
    if us == [] then []
    else if !us[0].role.User? then [Pair(None, Some(us[0]))] + Pairs(us[1..])
    else if |us| > 1 && us[1].role.Assistant? then [Pair(Some(us[0]), Some(us[1]))] + Pairs(us[2..])
    else [Pair(Some(us[0]), None)] + Pairs(us[1..])
  }

  lemma NoTurns()
    ensures Pairs([]) == []
  {
  }

  lemma PairsFrom(us: seq<Utterance>, i: nat)
    requires i < |us|
    ensures var paired := us[i].role.User? && i + 1 < |us| && us[i + 1].role.Assistant?;
      var pair := if !us[i].role.User? then Pair(None, Some(us[i]))
                  else Pair(Some(us[i]), if paired then Some(us[i + 1]) else None);
      Pairs(us[i..]) == [pair] + Pairs(us[i + (if paired then 2 else 1)..])
  {
  }

  method PairUtterances(us: seq<Utterance>) returns (pairs: seq<Pair>)
    ensures pairs == Pairs(us)
  {
    hide Pairs;
    pairs := [];
    var i := 0;
    assert us[0..] == us && Pairs([]) == [] by { NoTurns(); }
    while i < |us|
      invariant 0 <= i <= |us|
      invariant pairs + Pairs(us[i..]) == Pairs(us)
    {
      var cur := us[i];
      var pair := Pair(None, Some(cur));
      var step := 1;
      if cur.role.User? {
        var paired := i + 1 < |us| && us[i + 1].role.Assistant?;
        pair := Pair(Some(cur), if paired then Some(us[i + 1]) else None);
        step := if paired then 2 else 1;
      }
      PairsFrom(us, i);
      assert pairs + ([pair] + Pairs(us[i + step..])) == pairs + [pair] + Pairs(us[i + step..]);
      pairs := pairs + [pair];
      i := i + step;
    }
    assert us[i..] == [] && pairs + [] == pairs;
  }

  function Flatten(pairs: seq<Pair>): seq<Utterance> {
    if pairs == [] then [] else pairs[0].Turns() + Flatten(pairs[1..])
  }

  lemma HeadPair(us: seq<Utterance>)
    requires us != []
    ensures var n := if us[0].role.User? && |us| > 1 && us[1].role.Assistant? then 2 else 1;
      var pairs := Pairs(us);
      pairs != [] && pairs[0].Turns() == us[..n] && pairs[1..] == Pairs(us[n..])
  {
  }

  /** Nothing lost, nothing reordered. */
  lemma {:induction false} PairingIsLossless(us: seq<Utterance>)
    ensures Flatten(Pairs(us)) == us
    decreases |us|
  {
    hide Pairs;
    NoTurns();
    if us != [] {
      var n := if us[0].role.User? && |us| > 1 && us[1].role.Assistant? then 2 else 1;
      HeadPair(us);
      PairingIsLossless(us[n..]);
    }
  }

  /** Adjacent user-then-assistant turns. */
  function Replies(us: seq<Utterance>): nat {
    if |us| < 2 then 0
    else (if us[0].role.User? && us[1].role.Assistant? then 1 else 0) + Replies(us[1..])
  }

  /** Every reply shares an envelope with what it answers, so there are as many fewer envelopes. */
  lemma {:induction false} PairCount(us: seq<Utterance>)
    ensures |Pairs(us)| == |us| - Replies(us)
    decreases |us|
  {
    if us == [] {
    } else if us[0].role.User? && |us| > 1 && us[1].role.Assistant? {
      PairCount(us[2..]);
      assert us[1..][1..] == us[2..];
    } else {
      PairCount(us[1..]);
    }
  }

  lemma {:induction false} RepliesArePaired(us: seq<Utterance>, i: nat)
    requires i + 1 < |us| && us[i].role.User? && us[i + 1].role.Assistant?
    ensures Pair(Some(us[i]), Some(us[i + 1])) in Pairs(us)
    decreases |us|
  {
    if us[0].role.User? && us[1].role.Assistant? {
      if i >= 2 { RepliesArePaired(us[2..], i - 2); }
    } else {
      RepliesArePaired(us[1..], i - 1);
    }
  }

  /** One envelope's worth: a user turn, a reply, or both in that order. */
  predicate Shaped(p: Pair) {
    && (p.user.Some? || p.assistant.Some?)
    && (p.user.Some? ==> p.user.value.role.User?)
    && (p.assistant.Some? ==> !p.assistant.value.role.User?)
    && (p.user.Some? && p.assistant.Some? ==> p.assistant.value.role.Assistant?)
  }

  lemma {:induction false} PairsAreShaped(us: seq<Utterance>)
    ensures forall p <- Pairs(us) :: Shaped(p)
    decreases |us|
  {
    if us == [] {
    } else if us[0].role.User? && |us| > 1 && us[1].role.Assistant? {
      PairsAreShaped(us[2..]);
    } else {
      PairsAreShaped(us[1..]);
    }
  }

  /** No way of cutting the turns into envelopes needs fewer. */
  lemma {:induction false} PairingIsMinimal(us: seq<Utterance>, cut: seq<Pair>)
    requires (forall p <- cut :: Shaped(p)) && Flatten(cut) == us
    ensures |cut| >= |Pairs(us)|
    decreases |cut|
  {
    if cut != [] {
      var rest := Flatten(cut[1..]);
      assert forall p <- cut[1..] :: p in cut;
      assert Shaped(cut[0]);
      PairingIsMinimal(rest, cut[1..]);
      if |cut[0].Turns()| == 2 {
        assert us[2..] == rest;
      } else {
        assert us[1..] == rest;
        PairCount(us);
        PairCount(rest);
      }
    }
  }

  // ---------------------------------------------------------------- envelopes

  function EnvelopeOf(p: Pair): Envelope
    requires p.Turns() != []
  {
    Envelope(p.Turns()[0].index, p.Turns()[|p.Turns()| - 1].index, p.Turns())
  }

  /** The indexes of user turns that stand alone. */
  function Unanswered(pairs: seq<Pair>): seq<nat> {
    if pairs == [] then []
    else
      var last := pairs[|pairs| - 1];
      Unanswered(pairs[..|pairs| - 1])
      + if last.user.Some? && last.assistant.None? then [last.user.value.index] else []
  }

  lemma NoneUnanswered()
    ensures Unanswered([]) == []
  {
  }

  lemma UnansweredNext(pairs: seq<Pair>, p: Pair)
    ensures Unanswered(pairs + [p])
            == Unanswered(pairs) + if p.user.Some? && p.assistant.None? then [p.user.value.index] else []
  {
  }

  method MakeEnvelope(pair: Pair) returns (e: Envelope, warnings: seq<nat>)
    requires Shaped(pair)
    ensures pair.Turns() != [] && e == EnvelopeOf(pair)
    ensures warnings == if pair.user.Some? && pair.assistant.None? then [pair.user.value.index] else []
  {
    var first := if pair.user.Some? then pair.user.value else pair.assistant.value;
    var last := if pair.assistant.Some? then pair.assistant.value else pair.user.value;
    e := Envelope(first.index, last.index, pair.Turns());
    warnings := if pair.user.Some? && pair.assistant.None? then [pair.user.value.index] else [];
  }

  /** The envelopes of a dyadic transcript, and the user turns warned about. */
  method DyadicEnvelopes(us: seq<Utterance>) returns (envelopes: seq<Envelope>, warnings: seq<nat>)
    ensures |envelopes| == |Pairs(us)|
    ensures forall i :: 0 <= i < |envelopes| ==> Pairs(us)[i].Turns() != [] && envelopes[i] == EnvelopeOf(Pairs(us)[i])
    ensures warnings == Unanswered(Pairs(us))
  {
    hide Pairs, EnvelopeOf, Shaped, Unanswered;
    NoneUnanswered();
    var pairs := PairUtterances(us);
    PairsAreShaped(us);
    envelopes, warnings := [], [];
    var i := 0;
    while i < |pairs|
      invariant 0 <= i == |envelopes| <= |pairs|
      invariant forall j :: 0 <= j < i ==> pairs[j].Turns() != [] && envelopes[j] == EnvelopeOf(pairs[j])
      invariant warnings == Unanswered(pairs[..i])
    {
      assert pairs[i] in pairs && pairs[..i + 1] == pairs[..i] + [pairs[i]];
      UnansweredNext(pairs[..i], pairs[i]);
      var envelope, more := MakeEnvelope(pairs[i]);
      envelopes, warnings := envelopes + [envelope], warnings + more;
      i := i + 1;
    }
    assert pairs[..|pairs|] == pairs;
  }

  /** The user turn at index i is warned about exactly when no assistant turn follows it. */
  lemma WarnedIff(us: seq<Utterance>, i: nat)
    requires i < |us| && us[i].role.User? && forall j :: 0 <= j < |us| ==> us[j].index == j
    ensures i in Unanswered(Pairs(us)) <==> !(i + 1 < |us| && us[i + 1].role.Assistant?)
  {
    hide Pairs, Unanswered;
    UnansweredHas(Pairs(us), i);
    AloneIff(us, i);
    LoneUsers(us);
  }

  lemma {:induction false} UnansweredHas(pairs: seq<Pair>, i: nat)
    ensures i in Unanswered(pairs)
        <==> exists p <- pairs :: p.user.Some? && p.assistant.None? && p.user.value.index == i
  {
    if pairs != [] {
      UnansweredHas(pairs[..|pairs| - 1], i);
      assert pairs == pairs[..|pairs| - 1] + [pairs[|pairs| - 1]];
    }
  }

  lemma {:induction false} AloneIff(us: seq<Utterance>, i: nat)
    requires i < |us| && us[i].role.User?
    ensures !(i + 1 < |us| && us[i + 1].role.Assistant?) ==> Pair(Some(us[i]), None) in Pairs(us)
    decreases |us|
  {
    if i == 0 {
    } else if us[0].role.User? && us[1].role.Assistant? {
      if i >= 2 { AloneIff(us[2..], i - 2); }
    } else {
      AloneIff(us[1..], i - 1);
    }
  }

  lemma {:induction false} LoneUsers(us: seq<Utterance>)
    ensures forall p <- Pairs(us) :: p.user.Some? && p.assistant.None? ==>
              exists j :: 0 <= j < |us| && p.user == Some(us[j]) && !(j + 1 < |us| && us[j + 1].role.Assistant?)
    decreases |us|
  {
    if us != [] {
      var n := if us[0].role.User? && |us| > 1 && us[1].role.Assistant? then 2 else 1;
      LoneUsers(us[n..]);
      forall p | p in Pairs(us[n..]) && p.user.Some? && p.assistant.None?
        ensures exists j :: 0 <= j < |us| && p.user == Some(us[j]) && !(j + 1 < |us| && us[j + 1].role.Assistant?)
      {
        var j :| 0 <= j < |us[n..]| && p.user == Some(us[n..][j]) && !(j + 1 < |us[n..]|
            && us[n..][j + 1].role.Assistant?);
        assert us[n..][j] == us[j + n];
      }
    }
  }

  /** The source ranges of the envelopes run from `first` up to `next` without gap or overlap. */
  ghost predicate Tiles(pairs: seq<Pair>, first: nat, next: nat) {
    if pairs == [] then first == next
    else
      && pairs[0].Turns() != []
      && EnvelopeOf(pairs[0]).start == first <= EnvelopeOf(pairs[0]).end
      && Tiles(pairs[1..], EnvelopeOf(pairs[0]).end + 1, next)
  }

  lemma {:induction false} EnvelopesTile(us: seq<Utterance>, first: nat)
    requires forall j :: 0 <= j < |us| ==> us[j].index == first + j
    ensures Tiles(Pairs(us), first, first + |us|)
    decreases |us|
  {
    hide Pairs;
    NoTurns();
    if us != [] {
      var n := if us[0].role.User? && |us| > 1 && us[1].role.Assistant? then 2 else 1;
      EnvelopesTile(us[n..], first + n);
      HeadPair(us);
    }
  }

  // ---------------------------------------------------------------- group transcripts

  /** The turns a group transcript keeps: objects with content, whatever their role. */
  function GroupUtterances(aliases: map<string, Role>, raw: seq<RawTurn>, n: nat): seq<Utterance>
    requires n <= |raw|
  {
    if n == 0 then []
    else if raw[n - 1].NotObject? || Strip(raw[n - 1].content) == "" then GroupUtterances(aliases, raw, n - 1)
    else
      var t := raw[n - 1];
      var role := if Norm(t.role) in aliases then aliases[Norm(t.role)] else Other;
      GroupUtterances(aliases, raw, n - 1) + [Utterance(n - 1, role, Strip(t.content), Strip(t.speaker))]
  }

  function Concat(windows: seq<seq<Utterance>>): seq<Utterance> {
    if windows == [] then [] else windows[0] + Concat(windows[1..])
  }

  lemma {:induction false} ConcatSnoc(windows: seq<seq<Utterance>>, w: seq<Utterance>)
    ensures Concat(windows + [w]) == Concat(windows) + w
  {
    if windows != [] {
      ConcatSnoc(windows[1..], w);
      assert (windows + [w])[1..] == windows[1..] + [w];
      assert windows[0] + (Concat(windows[1..]) + w) == windows[0] + Concat(windows[1..]) + w;
    } else {
      assert [w][1..] == [] && w + [] == w;
    }
  }

  function WindowEnvelope(w: seq<Utterance>): Envelope
    requires w != []
  {
    Envelope(w[0].index, w[|w| - 1].index, w)
  }

  /** Windowing loses nothing, keeps the order, and fills every window but the last. */
  method GroupWindows(us: seq<Utterance>, size: nat) returns (windows: seq<seq<Utterance>>)
    requires size >= 1
    ensures Concat(windows) == us
    ensures forall i :: 0 <= i < |windows| ==> 1 <= |windows[i]| <= size
    ensures forall i :: 0 <= i < |windows| - 1 ==> |windows[i]| == size
    ensures |us| <= size * |windows| < |us| + size
  {
    windows := [];
    var at := 0;
    while at < |us|
      invariant 0 <= at <= |us|
      invariant Concat(windows) == us[..at]
      invariant forall i :: 0 <= i < |windows| ==> 1 <= |windows[i]| <= size
      invariant forall i :: 0 <= i < |windows| - 1 ==> |windows[i]| == size
      invariant at < |us| ==> at == size * |windows| && forall i :: 0 <= i < |windows| ==> |windows[i]| == size
      invariant at == |us| ==> |us| <= size * |windows| < |us| + size
    {
      var end := if at + size <= |us| then at + size else |us|;
      var window := us[at..end];
      assert us[..end] == us[..at] + window;
      ConcatSnoc(windows, window);
      assert size * (|windows| + 1) == size * |windows| + size;
      windows := windows + [window];
      at := end;
    }
    assert us[..|us|] == us;
  }

  method GroupEnvelopes(aliases: map<string, Role>, raw: seq<RawTurn>, size: nat) returns (r: Result<seq<Envelope>>)
    requires size >= 1
    ensures r.Err? <==> GroupUtterances(aliases, raw, |raw|) == []
    ensures r.Err? ==> r.failure == GroupEmpty
    ensures r.Ok? ==> Concat(TurnsOf(r.value)) == GroupUtterances(aliases, raw, |raw|)
    ensures r.Ok? ==> forall e <- r.value :: 1 <= |e.turns| <= size && e == WindowEnvelope(e.turns)
    ensures r.Ok? ==> forall i :: 0 <= i < |r.value| - 1 ==> |r.value[i].turns| == size
  {
    hide Strip, Norm;
    var us := [];
    var k := 0;
    while k < |raw|
      invariant 0 <= k <= |raw| && us == GroupUtterances(aliases, raw, k)
    {
      if raw[k].Turn? && Strip(raw[k].content) != "" {
        var role := if Norm(raw[k].role) in aliases then aliases[Norm(raw[k].role)] else Other;
        us := us + [Utterance(k, role, Strip(raw[k].content), Strip(raw[k].speaker))];
      }
      k := k + 1;
    }
    if us == [] { return Err(GroupEmpty); }
    var windows := GroupWindows(us, size);
    var envelopes := seq(|windows|, i requires 0 <= i < |windows| => WindowEnvelope(windows[i]));
    assert TurnsOf(envelopes) == windows;
    r := Ok(envelopes);
  }

  function TurnsOf(envelopes: seq<Envelope>): (r: seq<seq<Utterance>>)
    ensures |r| == |envelopes| && forall i :: 0 <= i < |envelopes| ==> r[i] == envelopes[i].turns
  {
    seq(|envelopes|, i requires 0 <= i < |envelopes| => envelopes[i].turns)
  }

  // ---------------------------------------------------------------- the whole payload

  lemma {:induction false} FlattenIsConcat(pairs: seq<Pair>, windows: seq<seq<Utterance>>)
    requires |windows| == |pairs| && forall i :: 0 <= i < |pairs| ==> windows[i] == pairs[i].Turns()
    ensures Concat(windows) == Flatten(pairs)
  {
    if pairs != [] { FlattenIsConcat(pairs[1..], windows[1..]); }
  }

  function WindowSize(given: int): nat {
    if given == 0 then 10 else if given < 1 then 1 else given
  }

  /** Without a fault, the dyadic reading keeps what the group reading would keep: every turn. */
  lemma {:induction false} FaultlessKeepsAll(aliases: map<string, Role>, raw: seq<RawTurn>, us: seq<Utterance>, n: nat)
    requires n <= |raw| == |us|
    requires forall i :: 0 <= i < |raw| ==>
               raw[i].Turn? && Norm(raw[i].role) in aliases && Strip(raw[i].content) != ""
               && us[i] == UtteranceOf(aliases, i, raw[i])
    ensures GroupUtterances(aliases, raw, n) == us[..n]
  {
    hide Norm, Strip;
    if n > 0 {
      FaultlessKeepsAll(aliases, raw, us, n - 1);
      assert us[..n] == us[..n - 1] + [us[n - 1]];
    }
  }

  lemma {:induction false} NoFaultMeansContent(aliases: map<string, Role>, raw: seq<RawTurn>, k: nat)
    requires k <= |raw| && FirstFault(aliases, raw, k).None?
    ensures forall i :: k <= i < |raw| ==> raw[i].Turn? && Strip(raw[i].content) != ""
    decreases |raw| - k
  {
    hide Norm, Strip;
    if k < |raw| { NoFaultMeansContent(aliases, raw, k + 1); }
  }

  method DyadicPayload(aliases: map<string, Role>, raw: seq<RawTurn>)
    returns (r: Result<seq<Envelope>>, warnings: seq<nat>)
    ensures r.Err? <==> FirstFault(aliases, raw, 0).Some?
    ensures r.Err? ==> Some(r.failure) == FirstFault(aliases, raw, 0)
    ensures r.Ok? ==>
              && Concat(TurnsOf(r.value)) == GroupUtterances(aliases, raw, |raw|)
              && |r.value| == |raw| - Replies(GroupUtterances(aliases, raw, |raw|))
              && warnings == Unanswered(Pairs(GroupUtterances(aliases, raw, |raw|)))
  {
    hide Norm, Strip, Pairs, Unanswered;
    warnings := [];
    var read := ReadUtterances(aliases, raw);
    if read.Err? { return Err(read.failure), []; }
    var us := read.value;
    NoFaultMeansContent(aliases, raw, 0);
    FaultlessKeepsAll(aliases, raw, us, |raw|);
    assert us[..|raw|] == us;
    var envelopes;
    envelopes, warnings := DyadicEnvelopes(us);
    PairCount(us);
    PairingIsLossless(us);
    FlattenIsConcat(Pairs(us), TurnsOf(envelopes));
    r := Ok(envelopes);
  }

  /** Either mode returns envelopes whose turns, in order, are the turns it keeps: all of them when
      dyadic, with one envelope fewer for every reply and a warning for every unanswered user turn;
      those with content in a group, in full windows but for the last. */
  method NormalizeTranscriptPayload(aliases: map<string, Role>, raw: seq<RawTurn>, group: bool, windowSize: int,
                                    maxTurns: int)
    returns (r: Result<seq<Envelope>>, warnings: seq<nat>)
    ensures raw == [] ==> r == Err(TurnsRequired)
    ensures raw != [] && |raw| > (if maxTurns < 1 then 1 else maxTurns) ==> r == Err(LimitExceeded)
    ensures r.Ok? ==> Concat(TurnsOf(r.value)) == GroupUtterances(aliases, raw, |raw|)
    ensures r.Ok? && !group ==>
              && FirstFault(aliases, raw, 0).None?
              && |r.value| == |raw| - Replies(GroupUtterances(aliases, raw, |raw|))
              && warnings == Unanswered(Pairs(GroupUtterances(aliases, raw, |raw|)))
    ensures r.Ok? && group ==>
              && warnings == []
              && (forall e <- r.value :: 1 <= |e.turns| <= WindowSize(windowSize))
              && (forall i :: 0 <= i < |r.value| - 1 ==> |r.value[i].turns| == WindowSize(windowSize))
    ensures r.Err? && 0 < |raw| <= (if maxTurns < 1 then 1 else maxTurns) ==>
              if group then r.failure == GroupEmpty && GroupUtterances(aliases, raw, |raw|) == []
              else FirstFault(aliases, raw, 0) == Some(r.failure)
  {
    hide Norm, Strip, FirstFault, GroupUtterances, Pairs, Unanswered, Replies;
    warnings := [];
    if raw == [] { return Err(TurnsRequired), []; }
    if |raw| > (if maxTurns < 1 then 1 else maxTurns) { return Err(LimitExceeded), []; }
    if group {
      r := GroupEnvelopes(aliases, raw, WindowSize(windowSize));
    } else {
      r, warnings := DyadicPayload(aliases, raw);
    }
  }

  // ---------------------------------------------------------------- ingest accounting

  /** The engine's answer to one envelope. */
  datatype Outcome = Raised | Returned(ok: bool)

  predicate Succeeded(o: Outcome) { o.Returned? && o.ok }

  predicate Answered(o: Outcome) { o.Returned? }

  predicate NamesSession(s: string) { s != "" }

  lemma NoSessions()
    ensures Dedup(Filter([], NamesSession)) == []
  {
  }

  lemma SessionNext(sessions: seq<string>, s: string)
    ensures var before := Dedup(Filter(sessions, NamesSession));
      Dedup(Filter(sessions + [s], NamesSession)) == if s == "" || s in before then before else before + [s]
  {
  }

  /** Every envelope is ingested or reported as an error, never both; sessions are flushed once
      each, in order of first appearance. */
  method IngestTurnEnvelopes(sessions: seq<string>, outcomes: seq<Outcome>, flush: bool)
    returns (ok: bool, ingested: nat, rows: nat, errors: seq<nat>, flushed: seq<string>)
    requires |sessions| == |outcomes|
    ensures ingested + |errors| == |outcomes| && ingested == Count(outcomes, Succeeded)
    ensures rows == Count(outcomes, Answered)
    ensures forall i :: i in errors <==> 0 <= i < |outcomes| && !Succeeded(outcomes[i])
    ensures ok <==> forall o <- outcomes :: Succeeded(o)
    ensures flushed == if flush then Dedup(Filter(sessions, NamesSession)) else []
  {
    hide Filter, Dedup, NamesSession;
    assert Dedup(Filter([], NamesSession)) == [] by { NoSessions(); }
    ingested, rows, errors := 0, 0, [];
    var ids: seq<string> := [];
    var i := 0;
    while i < |outcomes|
      invariant 0 <= i <= |outcomes|
      invariant ingested + |errors| == i && ingested == Count(outcomes[..i], Succeeded)
      invariant rows == Count(outcomes[..i], Answered)
      invariant forall j :: j in errors <==> 0 <= j < i && !Succeeded(outcomes[j])
      invariant ids == Dedup(Filter(sessions[..i], NamesSession))
    {
      assert sessions[..i + 1] == sessions[..i] + [sessions[i]] && outcomes[..i + 1] == outcomes[..i] + [outcomes[i]];
      SessionNext(sessions[..i], sessions[i]);
      CountConcat(outcomes[..i], [outcomes[i]], Succeeded);
      CountConcat(outcomes[..i], [outcomes[i]], Answered);
      if sessions[i] != "" && sessions[i] !in ids {
        ids := ids + [sessions[i]];
      }
      if outcomes[i].Returned? { rows := rows + 1; }
      if Succeeded(outcomes[i]) {
        ingested := ingested + 1;
      } else {
        errors := errors + [i];
      }
      i := i + 1;
    }
    assert sessions[..|sessions|] == sessions && outcomes[..|outcomes|] == outcomes;
    ok := errors == [];
    assert !ok ==> errors[0] in errors;
    flushed := if flush then ids else [];
  }
}
