/** Token-holder election: argmin of a hash over (sorted view ∩ authorised) − removed − suspended. */
module Election {
  import opened Bytes
  import opened Sorting
  import opened Types

  /** What application policy answers for an epoch and a candidate batch; `None` is an error. */
  type Provider = (nat, seq<BufferedProposal>) -> Option<seq<PeerId>>

  /** The group's fixed parameters; `sha256` and `peerText` are arbitrary functions. */
  datatype Group = Group(id: Bytes, sha256: Bytes -> Bytes, peerText: PeerId -> string, provider: Option<Provider>)

  datatype Elected = Elected(holder: PeerId) | NoActiveView | PolicyFailed

  function TokenHash(g: Group, epoch: nat, p: PeerId): Bytes {
    g.sha256(g.id + LittleEndian64(epoch) + p)
  }

  /** Epochs and peers share a token hash only if the hash function collides on what is hashed for them. */
  lemma TokenHashesSeparate(g: Group, e: nat, p: PeerId, f: nat, q: PeerId) returns (x: Bytes, y: Bytes)
    requires e < 0x1_0000_0000_0000_0000 && f < 0x1_0000_0000_0000_0000 && (e != f || p != q)
    requires TokenHash(g, e, p) == TokenHash(g, f, q)
    ensures x != y && g.sha256(x) == g.sha256(y) && g.id <= x && g.id <= y
  {
    x, y := g.id + LittleEndian64(e) + p, g.id + LittleEndian64(f) + q;
    LittleEndianRoundTrip(e);
    LittleEndianRoundTrip(f);
    var n := |g.id|;
    assert x[n..n + 8] == LittleEndian64(e) && y[n..n + 8] == LittleEndian64(f) && x[n + 8..] == p && y[n + 8..] == q;
  }

  /** The election order: by hash, and by peer ID where hashes collide. */
  predicate Before(g: Group, epoch: nat, p: PeerId, q: PeerId) {
    || Less(TokenHash(g, epoch, p), TokenHash(g, epoch, q))
    || (TokenHash(g, epoch, p) == TokenHash(g, epoch, q) && Less(p, q))
  }

  lemma BeforeTotal(g: Group, epoch: nat, p: PeerId, q: PeerId)
    ensures p == q || Before(g, epoch, p, q) || Before(g, epoch, q, p)
  {
    LessTotal(TokenHash(g, epoch, p), TokenHash(g, epoch, q));
    LessTotal(p, q);
  }

  lemma BeforeTransitive(g: Group, epoch: nat, p: PeerId, q: PeerId, r: PeerId)
    requires Before(g, epoch, p, q) && Before(g, epoch, q, r)
    ensures Before(g, epoch, p, r)
  {
    var hp, hq, hr := TokenHash(g, epoch, p), TokenHash(g, epoch, q), TokenHash(g, epoch, r);
    if Less(hp, hq) && Less(hq, hr) {
      LessTransitive(hp, hq, hr);
    }
    if hp == hq && hq == hr {
      LessIrreflexive(hp);
      LessTransitive(p, q, r);
    }
  }

  lemma BeforeAsymmetric(g: Group, epoch: nat, p: PeerId, q: PeerId)
    requires Before(g, epoch, p, q)
    ensures p != q && !Before(g, epoch, q, p)
  {
    LessIrreflexive(p);
    LessIrreflexive(TokenHash(g, epoch, p));
    if Before(g, epoch, q, p) {
      BeforeTransitive(g, epoch, p, q, p);
    }
  }

  /** `p` is the member of `s` that every other member comes after. */
  ghost predicate IsFirst(g: Group, epoch: nat, s: set<PeerId>, p: PeerId) {
    p in s && forall q :: q in s && q != p ==> Before(g, epoch, p, q)
  }

  lemma FirstUnique(g: Group, epoch: nat, s: set<PeerId>, p: PeerId, q: PeerId)
    requires IsFirst(g, epoch, s, p) && IsFirst(g, epoch, s, q)
    ensures p == q
  {
    if p != q {
      BeforeAsymmetric(g, epoch, p, q);
    }
  }

  ghost function Elements(s: seq<PeerId>): set<PeerId> {
    set p | p in s
  }

  /** The loop of ComputeTokenHolder: the earliest position whose hash is minimal. */
  function FirstMinimal(g: Group, epoch: nat, view: seq<PeerId>): (r: Elected)
    ensures r.Elected? <==> view != []
    ensures !r.PolicyFailed?
  {
    if view == [] then NoActiveView
    else
      var last := view[|view| - 1];
      var best := FirstMinimal(g, epoch, view[..|view| - 1]);
      if best.NoActiveView? || Less(TokenHash(g, epoch, last), TokenHash(g, epoch, best.holder)) then Elected(last)
      else best
  }

  /** Over a strictly sorted view the loop's winner is first in the election order. */
  lemma {:induction false} FirstMinimalIsFirst(g: Group, epoch: nat, view: seq<PeerId>)
    requires view != []
    requires StrictlySorted(Less, view)
    ensures IsFirst(g, epoch, Elements(view), FirstMinimal(g, epoch, view).holder)
  {
    var init, last := view[..|view| - 1], view[|view| - 1];
    if init != [] {
      FirstMinimalIsFirst(g, epoch, init);
      var best := FirstMinimal(g, epoch, init).holder;
      assert best in init;
      var winner := FirstMinimal(g, epoch, view).holder;
      forall q | q in view && q != winner
        ensures Before(g, epoch, winner, q)
      {
        assert q in init || q == last;
        if winner == last && q != last && q != best {
          BeforeTransitive(g, epoch, last, best, q);
        } else if winner == best {
          LessTotal(TokenHash(g, epoch, best), TokenHash(g, epoch, last));
          var k :| 0 <= k < |init| && init[k] == best;
          assert Less(view[k], view[|view| - 1]);
        }
      }
    }
  }

  method ComputeTokenHolder(g: Group, view: seq<PeerId>, epoch: nat) returns (r: Elected)
    ensures r == FirstMinimal(g, epoch, view)
    ensures view == [] <==> r == NoActiveView
    ensures StrictlySorted(Less, view) && view != [] ==> r.Elected? && IsFirst(g, epoch, Elements(view), r.holder)
  {
    if view == [] {
      return NoActiveView;
    }
    var best, bestHash := view[0], TokenHash(g, epoch, view[0]);
    var i := 1;
    assert view[..1] == [view[0]];
    while i < |view|
      invariant 1 <= i <= |view|
      invariant FirstMinimal(g, epoch, view[..i]) == Elected(best)
      invariant bestHash == TokenHash(g, epoch, best)
    {
      var candidate := TokenHash(g, epoch, view[i]);
      assert view[..i + 1][..i] == view[..i];
      if Less(candidate, bestHash) {
        best, bestHash := view[i], candidate;
      }
      i := i + 1;
    }
    assert view[..|view|] == view;
    r := Elected(best);
    if StrictlySorted(Less, view) {
      FirstMinimalIsFirst(g, epoch, view);
    }
  }

  /** The members of `s` in `keep`, in order. */
  function KeepIn(s: seq<PeerId>, keep: set<PeerId>): (r: seq<PeerId>)
    ensures forall p :: p in r <==> p in s && p in keep
  {
    if s == [] then []
    else
      assert s == [s[0]] + s[1..];
      (if s[0] in keep then [s[0]] else []) + KeepIn(s[1..], keep)
  }

  lemma {:induction false} KeepInSorted(s: seq<PeerId>, keep: set<PeerId>)
    requires StrictlySorted(Less, s)
    ensures StrictlySorted(Less, KeepIn(s, keep))
  {
    if s != [] {
      KeepInSorted(s[1..], keep);
      var t := KeepIn(s[1..], keep);
      forall j | 0 <= j < |t|
        ensures Less(s[0], t[j])
      {
        assert t[j] in s[1..];
      }
    }
  }

  lemma {:induction false} KeepInAppend(s: seq<PeerId>, t: seq<PeerId>, keep: set<PeerId>)
    ensures KeepIn(s + t, keep) == KeepIn(s, keep) + KeepIn(t, keep)
  {
    if s == [] {
      assert s + t == t;
    } else {
      assert (s + t)[1..] == s[1..] + t;
      KeepInAppend(s[1..], t, keep);
    }
  }

  /** The loop shared by the three filters: keep the candidates that are in `keep`. */
  method FilterPeers(candidates: seq<PeerId>, keep: set<PeerId>) returns (out: seq<PeerId>)
    ensures out == KeepIn(candidates, keep)
  {
    out := [];
    var i := 0;
    while i < |candidates|
      invariant 0 <= i <= |candidates|
      invariant out == KeepIn(candidates[..i], keep)
    {
      assert candidates[..i + 1] == candidates[..i] + [candidates[i]];
      KeepInAppend(candidates[..i], [candidates[i]], keep);
      if candidates[i] in keep {
        out := out + [candidates[i]];
      }
      i := i + 1;
    }
    assert candidates[..|candidates|] == candidates;
  }

  /** The targets that a batch removes, as peer texts. */
  function RemovedBy(batch: seq<BufferedProposal>): set<string> {
    set p | p in batch && p.kind.Remove? && p.target != "" :: p.target
  }

  /** removesPeer: does the batch remove this peer? */
  predicate RemovesPeer(g: Group, batch: seq<BufferedProposal>, p: PeerId) {
    p != NO_PEER && exists b :: b in batch && b.kind.Remove? && b.target == g.peerText(p)
  }

  /** filterRemovedByBatch. */
  function Staying(g: Group, active: seq<PeerId>, batch: seq<BufferedProposal>): seq<PeerId> {
    KeepIn(active, set p | p in active && g.peerText(p) !in RemovedBy(batch))
  }

  /** filterSuspended. */
  function Unsuspended(active: seq<PeerId>, suspended: set<PeerId>): seq<PeerId> {
    KeepIn(active, (set p | p in active) - suspended)
  }

  /** Who may be elected: the view, cut by policy, by the batch's removals and by suspensions. */
  function Eligible(g: Group, epoch: nat, members: seq<PeerId>, batch: seq<BufferedProposal>, suspended: set<PeerId>)
    : (r: Option<seq<PeerId>>)
  {
    match AuthorisedView(g, epoch, members, batch)
    case None => None
    case Some(active) => Some(Unsuspended(Staying(g, active, batch), suspended))
  }

  /** intersectPeerIDs with the policy's answer; without a policy the view itself. */
  function AuthorisedView(g: Group, epoch: nat, members: seq<PeerId>,
                          batch: seq<BufferedProposal>): Option<seq<PeerId>> {
    match g.provider
    case None => Some(members)
    case Some(policy) =>
      match policy(epoch, batch)
      case None => None
      case Some(authorised) => Some(KeepIn(members, (set p | p in authorised) - {NO_PEER}))
  }

  /** computeHolder. */
  function Holder(g: Group, epoch: nat, members: seq<PeerId>, batch: seq<BufferedProposal>,
                  suspended: set<PeerId>): Elected {
    match Eligible(g, epoch, members, batch, suspended)
    case None => PolicyFailed
    case Some(candidates) => FirstMinimal(g, epoch, candidates)
  }

  /** Policy's verdict on one peer, said without the filters. */
  ghost predicate Allowed(g: Group, epoch: nat, batch: seq<BufferedProposal>, p: PeerId) {
    match g.provider
    case None => true
    case Some(policy) =>
      match policy(epoch, batch)
      case None => false
      case Some(authorised) => p in authorised && p != NO_PEER
  }

  ghost predicate PolicyAnswers(g: Group, epoch: nat, batch: seq<BufferedProposal>) {
    g.provider.Some? ==> g.provider.value(epoch, batch).Some?
  }

  /** Membership in the eligible list, peer by peer. */
  ghost predicate MayHold(g: Group, epoch: nat, members: seq<PeerId>, batch: seq<BufferedProposal>,
                          suspended: set<PeerId>, p: PeerId) {
    && p in members
    && Allowed(g, epoch, batch, p)
    && g.peerText(p) !in RemovedBy(batch)
    && p !in suspended
  }

  ghost function EligibleSet(g: Group, epoch: nat, members: seq<PeerId>, batch: seq<BufferedProposal>,
                             suspended: set<PeerId>): set<PeerId> {
    set p | p in members && MayHold(g, epoch, members, batch, suspended, p)
  }

  lemma AuthorisedMeaning(g: Group, epoch: nat, members: seq<PeerId>, batch: seq<BufferedProposal>)
    requires StrictlySorted(Less, members)
    ensures PolicyAnswers(g, epoch, batch) <==> AuthorisedView(g, epoch, members, batch).Some?
    ensures PolicyAnswers(g, epoch, batch) ==>
              var active := AuthorisedView(g, epoch, members, batch).value;
              && StrictlySorted(Less, active)
              && forall p :: p in active <==> p in members && Allowed(g, epoch, batch, p)
  {
    if g.provider.Some? && PolicyAnswers(g, epoch, batch) {
      KeepInSorted(members, (set p | p in g.provider.value(epoch, batch).value) - {NO_PEER});
    }
  }

  lemma CutMeaning(g: Group, active: seq<PeerId>, batch: seq<BufferedProposal>, suspended: set<PeerId>)
    requires StrictlySorted(Less, active)
    ensures StrictlySorted(Less, Unsuspended(Staying(g, active, batch), suspended))
    ensures forall p :: p in Unsuspended(Staying(g, active, batch), suspended) <==>
                        p in active && g.peerText(p) !in RemovedBy(batch) && p !in suspended
  {
    KeepInSorted(active, set p | p in active && g.peerText(p) !in RemovedBy(batch));
    var staying := Staying(g, active, batch);
    KeepInSorted(staying, (set p | p in staying) - suspended);
  }

  lemma EligibleMeaning(g: Group, epoch: nat, members: seq<PeerId>, batch: seq<BufferedProposal>,
                        suspended: set<PeerId>)
    requires StrictlySorted(Less, members)
    ensures PolicyAnswers(g, epoch, batch) <==> Eligible(g, epoch, members, batch, suspended).Some?
    ensures PolicyAnswers(g, epoch, batch) ==>
              && StrictlySorted(Less, Eligible(g, epoch, members, batch, suspended).value)
              && Elements(Eligible(g, epoch, members, batch, suspended).value) ==
                   EligibleSet(g, epoch, members, batch, suspended)
  {
    AuthorisedMeaning(g, epoch, members, batch);
    if PolicyAnswers(g, epoch, batch) {
      CutMeaning(g, AuthorisedView(g, epoch, members, batch).value, batch, suspended);
    }
  }

  /** The holder is exactly the peer that comes first among those that may hold. */
  lemma HolderIsFirst(g: Group, epoch: nat, members: seq<PeerId>, batch: seq<BufferedProposal>, suspended: set<PeerId>,
                      p: PeerId)
    requires StrictlySorted(Less, members)
    ensures Holder(g, epoch, members, batch, suspended) == Elected(p) <==>
            PolicyAnswers(g, epoch, batch) && IsFirst(g, epoch, EligibleSet(g, epoch, members, batch, suspended), p)
    ensures Holder(g, epoch, members, batch, suspended) == NoActiveView <==>
            PolicyAnswers(g, epoch, batch) && EligibleSet(g, epoch, members, batch, suspended) == {}
  {
    EligibleMeaning(g, epoch, members, batch, suspended);
    if PolicyAnswers(g, epoch, batch) {
      var candidates := Eligible(g, epoch, members, batch, suspended).value;
      if candidates != [] {
        FirstMinimalIsFirst(g, epoch, candidates);
        var h := FirstMinimal(g, epoch, candidates).holder;
        assert candidates[0] in EligibleSet(g, epoch, members, batch, suspended);
        if IsFirst(g, epoch, EligibleSet(g, epoch, members, batch, suspended), p) {
          FirstUnique(g, epoch, EligibleSet(g, epoch, members, batch, suspended), p, h);
        }
      }
    }
  }

  /** A token holder is never removed by the batch that elected it. */
  lemma HolderNotRemoved(g: Group, epoch: nat, members: seq<PeerId>, batch: seq<BufferedProposal>,
                         suspended: set<PeerId>)
    requires StrictlySorted(Less, members)
    requires g.peerText(NO_PEER) == ""
    requires forall p :: p != NO_PEER ==> g.peerText(p) != ""
    requires Holder(g, epoch, members, batch, suspended).Elected?
    ensures !RemovesPeer(g, batch, Holder(g, epoch, members, batch, suspended).holder)
  {
    var h := Holder(g, epoch, members, batch, suspended).holder;
    assert RemovesPeer(g, batch, h) ==> g.peerText(h) in RemovedBy(batch);
    HolderIsFirst(g, epoch, members, batch, suspended, h);
  }

  /** computeHolder with its three filter loops. */
  method ComputeHolder(g: Group, epoch: nat, members: seq<PeerId>, batch: seq<BufferedProposal>, suspended: set<PeerId>)
    returns (r: Elected)
    ensures r == Holder(g, epoch, members, batch, suspended)
  {
    var eligible := members;
    if g.provider.Some? {
      var answer := g.provider.value(epoch, batch);
      if answer.None? {
        return PolicyFailed;
      }
      eligible := FilterPeers(members, (set p | p in answer.value) - {NO_PEER});
    }
    var active := eligible;
    eligible := FilterPeers(active, set p | p in active && g.peerText(p) !in RemovedBy(batch));
    eligible := FilterPeers(eligible, (set p | p in eligible) - suspended);
    r := ComputeTokenHolder(g, eligible, epoch);
  }
}
