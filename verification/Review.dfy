/** The reader of a crawler update: flattens reviewed beads into promotions, association payloads
    and lifecycle requests in one normal form. */
module Review {
  import opened Options
  import opened Text
  import opened Sequences
  import opened Inference
  import opened SideLog

  /** An association as authored, with both spellings of its ends. */
  datatype RawAssoc = RawAssoc(source: string, sourceId: string, target: string, targetId: string, relationship: string,
                               reasonText: string, rationale: string, confidence: Option<real>, provenance: string)

  datatype RawAction = RawAction(target: string, action: string, replacement: string, reasonText: string,
      reason: string,
                                 confidence: Option<real>, provenance: string)

  datatype Reviewed = Reviewed(bead: string, state: string, associations: seq<RawAssoc>, actions: seq<RawAction>)

  datatype Updates = Updates(promotions: seq<string>, associations: seq<RawAssoc>, lifecycle: seq<RawAction>,
                             reviewed: seq<Reviewed>)

  const PROMOTING := {"promote", "promoted", "preserve_full_in_rolling", "mark_promoted"}

  predicate Named(bead: string) { bead != "" }

  predicate Promotes(r: Reviewed) { r.bead != "" && Norm(r.state) in PROMOTING }

  /** An association inside a reviewed bead starts, by default, at that bead; the short spellings of
      its ends are not read here. */
  function Nested(bead: string, a: RawAssoc): RawAssoc {
    a.(source := "", sourceId := Or(a.sourceId, bead), target := "")
  }

  function NestedAll(bead: string, xs: seq<RawAssoc>): (r: seq<RawAssoc>)
    ensures |r| == |xs| && forall i :: 0 <= i < |xs| ==> r[i] == Nested(bead, xs[i])
  {
    seq(|xs|, i requires 0 <= i < |xs| => Nested(bead, xs[i]))
  }

  function NormalAssoc(a: RawAssoc): Payload {
    Payload(Strip(Or(a.source, a.sourceId)), Strip(Or(a.target, a.targetId)), Norm(a.relationship),
            Strip(a.reasonText), Strip(a.rationale), a.confidence, Provenance(a.provenance))
  }

  function ActionOf(text: string): Action {
    if text == "retract" then Retract
    else if text == "supersede" then Supersede
    else if text == "reaffirm" then Reaffirm
    else Other
  }

  function NormalAction(a: RawAction): LifeRequest {
    LifeRequest(Strip(a.target), ActionOf(Norm(a.action)), Strip(a.replacement), Strip(Or(a.reasonText, a.reason)),
                a.confidence, Provenance(a.provenance))
  }

  // ---------------------------------------------------------------- flattening

  function Promoted(rs: seq<Reviewed>): seq<string> {
    if rs == [] then []
    else
      var before, r := Promoted(rs[..|rs| - 1]), rs[|rs| - 1];
      if Promotes(r) then before + [r.bead] else before
  }

  function Associations(rs: seq<Reviewed>): seq<RawAssoc> {
    if rs == [] then []
    else Associations(rs[..|rs| - 1]) + NestedAll(rs[|rs| - 1].bead, rs[|rs| - 1].associations)
  }

  function Actions(rs: seq<Reviewed>): seq<RawAction> {
    if rs == [] then [] else Actions(rs[..|rs| - 1]) + rs[|rs| - 1].actions
  }

  function NormalAssocs(xs: seq<RawAssoc>): (r: seq<Payload>)
    ensures |r| == |xs| && forall i :: 0 <= i < |xs| ==> r[i] == NormalAssoc(xs[i])
  {
    seq(|xs|, i requires 0 <= i < |xs| => NormalAssoc(xs[i]))
  }

  function NormalActions(xs: seq<RawAction>): (r: seq<LifeRequest>)
    ensures |r| == |xs| && forall i :: 0 <= i < |xs| ==> r[i] == NormalAction(xs[i])
  {
    seq(|xs|, i requires 0 <= i < |xs| => NormalAction(xs[i]))
  }

  /** Everything an update asks for: each promotion once, in order of first mention; every
      association and action, top-level ones first. */
  method NormalizeReviewRows(u: Updates)
    returns (promotions: seq<string>, associations: seq<Payload>, lifecycle: seq<LifeRequest>)
    ensures promotions == Dedup(Filter(u.promotions, Named) + Promoted(u.reviewed))
    ensures associations == NormalAssocs(u.associations + Associations(u.reviewed))
    ensures lifecycle == NormalActions(u.lifecycle + Actions(u.reviewed))
  {
    hide Promotes, Nested, NormalAssoc, NormalAction, Dedup, Filter;
    var named, assocs, actions := Filter(u.promotions, Named), u.associations, u.lifecycle;
    var i := 0;
    while i < |u.reviewed|
      invariant 0 <= i <= |u.reviewed|
      invariant named == Filter(u.promotions, Named) + Promoted(u.reviewed[..i])
      invariant assocs == u.associations + Associations(u.reviewed[..i])
      invariant actions == u.lifecycle + Actions(u.reviewed[..i])
    {
      var r := u.reviewed[i];
      assert u.reviewed[..i + 1][..i] == u.reviewed[..i];
      if Promotes(r) { named := named + [r.bead]; }
      assocs := assocs + NestedAll(r.bead, r.associations);
      actions := actions + r.actions;
      i := i + 1;
    }
    assert u.reviewed[..|u.reviewed|] == u.reviewed;
    promotions := DropRepeats(named);
    associations, lifecycle := NormalAssocs(assocs), NormalActions(actions);
  }

  method DropRepeats(xs: seq<string>) returns (out: seq<string>)
    ensures out == Dedup(xs)
  {
    out := [];
    var seen: set<string> := {};
    var i := 0;
    while i < |xs|
      invariant 0 <= i <= |xs| && out == Dedup(xs[..i]) && forall x :: x in seen <==> x in out
    {
      assert xs[..i + 1][..i] == xs[..i];
      if xs[i] !in seen {
        out, seen := out + [xs[i]], seen + {xs[i]};
      }
      i := i + 1;
    }
    assert xs[..|xs|] == xs;
  }

  // ---------------------------------------------------------------- laws

  lemma ProvenanceTwice(p: string)
    ensures Provenance(Provenance(p)) == Provenance(p)
  {
  }

  lemma StripTwice(s: string)
    ensures Strip(Strip(s)) == Strip(s)
  {
  }

  /** Normalising a payload before validating it changes neither the verdict nor the record. */
  lemma NormalFormIsInvisible(rel: Relations, mode: Mode, a: RawAssoc)
    ensures Validate(rel, mode, NormalAssoc(a))
            == Validate(rel, mode, Payload(Or(a.source, a.sourceId), Or(a.target, a.targetId), a.relationship,
                                           a.reasonText, a.rationale, a.confidence, a.provenance))
  {
    ProvenanceTwice(a.provenance);
    NormTwice(a.relationship);
    hide Norm, Provenance;
  }

  /** A normal payload, authored again at top level. */
  function Again(p: Payload): RawAssoc {
    RawAssoc(p.source, "", p.target, "", p.relationship, p.reasonText, p.rationale, p.confidence, p.provenance)
  }

  /** The normal form is stable. */
  lemma NormalAgain(a: RawAssoc)
    ensures NormalAssoc(Again(NormalAssoc(a))) == NormalAssoc(a)
  {
    ProvenanceTwice(a.provenance);
    NormTwice(a.relationship);
    hide Norm, Provenance;
    StripTwice(Or(a.source, a.sourceId));
    StripTwice(Or(a.target, a.targetId));
    assert Strip("") == "";
  }

  /** A bead is promoted exactly when some list names it or a review of it says so. */
  lemma PromotedIff(u: Updates, bead: string)
    ensures bead in Dedup(Filter(u.promotions, Named) + Promoted(u.reviewed))
            <==> bead != "" && (bead in u.promotions || exists r <- u.reviewed :: r.bead == bead && Promotes(r))
  {
    PromotedHas(u.reviewed, bead);
  }

  lemma {:induction false} PromotedHas(rs: seq<Reviewed>, bead: string)
    ensures bead in Promoted(rs) <==> exists r <- rs :: r.bead == bead && Promotes(r)
  {
    hide Norm;
    if rs != [] {
      PromotedHas(rs[..|rs| - 1], bead);
      assert rs == rs[..|rs| - 1] + [rs[|rs| - 1]];
    }
  }

  function Nests(rs: seq<Reviewed>): nat {
    if rs == [] then 0 else Nests(rs[..|rs| - 1]) + |rs[|rs| - 1].associations|
  }

  /** No association is lost, and each nested one without a source starts at the reviewed bead. */
  lemma {:induction false} NestedAreKept(rs: seq<Reviewed>)
    ensures |Associations(rs)| == Nests(rs)
    ensures forall r <- rs, a <- r.associations :: Nested(r.bead, a) in Associations(rs)
  {
    hide Nested;
    if rs != [] {
      var init, last := rs[..|rs| - 1], rs[|rs| - 1];
      NestedAreKept(init);
      assert rs == init + [last];
      forall r, a | r in rs && a in r.associations
        ensures Nested(r.bead, a) in Associations(rs)
      {
        if r == last {
          var i :| 0 <= i < |last.associations| && last.associations[i] == a;
          assert NestedAll(last.bead, last.associations)[i] in Associations(rs);
        }
      }
    }
  }
}
