/** Laws of the record of offers, promotions and endings, and what follows from them alone. */
module AudioTrace {
  import opened Common
  import opened AudioSpec

  /** The item promoted and not yet ended. */
  function Open(trace: Trace): Option<Item> {
    if trace == [] then None
    else match trace[|trace| - 1]
      case Promoted(item) => Some(item)
      case Ended(_, _) => None
      case _ => Open(trace[..|trace| - 1])
  }

  /** The item came to its end by itself, well or badly. */
  predicate Natural(how: Ending) {
    how.Played? || how.PlaybackFailed? || how.SynthesisFailed?
  }

  /** The next link, right after its predecessor ended by itself. */
  function Due(trace: Trace): Option<Item> {
    if trace == [] then None
    else match trace[|trace| - 1]
      case Ended(item, how) => if Natural(how) then NextOf(item) else None
      case _ => None
  }

  /** Promotions and endings alternate, each ending ends what was promoted; a due link is promoted at once,
      and nothing else is promoted but what was offered. */
  ghost predicate Lawful(trace: Trace) {
    trace == [] ||
    var p := trace[..|trace| - 1];
    Lawful(p) && Allowed(p, trace[|trace| - 1])
  }

  ghost predicate Allowed(p: Trace, e: Event) {
    match e
    case Promoted(item) => Open(p).None? && if Due(p).Some? then Due(p) == Some(item) else Offered(item) in p
    case Ended(item, _) => Open(p) == Some(item)
    case _ => Due(p).None?
  }

  function Promotions(trace: Trace): nat {
    if trace == [] then 0
    else Promotions(trace[..|trace| - 1]) + if trace[|trace| - 1].Promoted? then 1 else 0
  }

  function EndedBy(trace: Trace, how: Ending): nat {
    if trace == [] then 0
    else EndedBy(trace[..|trace| - 1], how) + if trace[|trace| - 1].Ended? && trace[|trace| - 1].how == how then 1 else 0
  }

  function AllEnded(trace: Trace): nat {
    EndedBy(trace, Played) + EndedBy(trace, PlaybackFailed) + EndedBy(trace, SynthesisFailed) + EndedBy(trace, Interrupted)
    + EndedBy(trace, InterruptedByAlert) + EndedBy(trace, Skipped) + EndedBy(trace, Cancelled)
  }

  /** Every promotion ended in exactly one way, but for the one still open. */
  lemma {:induction false} PromotionsBalance(trace: Trace)
    requires Lawful(trace)
    ensures Promotions(trace) == AllEnded(trace) + if Open(trace).Some? then 1 else 0
  {
    if trace != [] {
      PromotionsBalance(trace[..|trace| - 1]);
      var e := trace[|trace| - 1];
      if e.Ended? {
        match e.how
        case Played => case PlaybackFailed => case SynthesisFailed => case Interrupted =>
        case InterruptedByAlert => case Skipped => case Cancelled =>
      }
    }
  }

  lemma {:induction false} LawfulPrefix(trace: Trace, k: nat)
    requires Lawful(trace) && k <= |trace|
    ensures Lawful(trace[..k]) && (k < |trace| ==> Allowed(trace[..k], trace[k]))
  {
    if k < |trace| {
      LawfulPrefix(trace[..|trace| - 1], k);
      assert trace[..|trace| - 1][..k] == trace[..k];
    } else {
      assert trace[..k] == trace;
    }
  }

  /** A due link is promoted at once. */
  lemma {:induction false} ChainGoesOn(trace: Trace, k: nat)
    requires Lawful(trace) && Due(trace).None? && k < |trace|
    requires trace[k].Ended? && Natural(trace[k].how) && NextOf(trace[k].item).Some?
    ensures k + 1 < |trace| && trace[k + 1] == Promoted(NextOf(trace[k].item).value)
  {
    assert k + 1 < |trace|;
    LawfulPrefix(trace, k + 1);
    assert trace[..k + 1][|trace[..k + 1]| - 1] == trace[k];
    assert Due(trace[..k + 1]) == NextOf(trace[k].item);
    assert Open(trace[..k + 1]).None?;
  }

  // ----- chains -----

  ghost predicate InTail(item: Item, link: Item)
    decreases item
  {
    NextOf(item).Some? && (NextOf(item).value == link || InTail(NextOf(item).value, link))
  }

  ghost predicate InChain(item: Item, link: Item) {
    item == link || InTail(item, link)
  }

  lemma {:induction false} InChainStep(item: Item, link: Item, next: Item)
    requires InChain(item, link) && NextOf(link) == Some(next)
    ensures InTail(item, next)
    decreases item
  {
    if item != link && NextOf(item).value != link { InChainStep(NextOf(item).value, link, next); }
  }

  /** Everything promoted belongs to a chain that was offered. */
  lemma {:induction false} PromotedWasOffered(trace: Trace, item: Item) returns (first: Item)
    requires Lawful(trace) && Promoted(item) in trace
    ensures Offered(first) in trace && InChain(first, item)
  {
    var p, e := trace[..|trace| - 1], trace[|trace| - 1];
    assert trace == p + [e];
    if Promoted(item) in p {
      first := PromotedWasOffered(p, item);
    } else if Due(p).None? {
      first := item;
    } else {
      var before, ended := p[..|p| - 1], p[|p| - 1];
      assert p == before + [ended];
      OpenWasPromoted(before);
      first := PromotedWasOffered(p, ended.item);
      InChainStep(first, ended.item, item);
    }
  }

  lemma {:induction false} OpenWasPromoted(trace: Trace)
    requires Open(trace).Some?
    ensures Promoted(Open(trace).value) in trace
  {
    var p, e := trace[..|trace| - 1], trace[|trace| - 1];
    assert trace == p + [e];
    if !e.Promoted? { OpenWasPromoted(p); }
  }

  // ----- ids -----

  function ChainCount(item: Item, id: nat): nat
    decreases item
  {
    (if item.id == id then 1 else 0) + TailCount(item, id)
  }

  function TailCount(item: Item, id: nat): nat
    decreases item, 0
  {
    if NextOf(item).None? then 0 else ChainCount(NextOf(item).value, id)
  }

  function CountIn(items: seq<Item>, id: nat): nat {
    if items == [] then 0 else ChainCount(items[0], id) + CountIn(items[1..], id)
  }

  /** How often an id was offered, in whatever position of a chain. */
  function OfferedCount(trace: Trace, id: nat): nat {
    if trace == [] then 0
    else
      var e := trace[|trace| - 1];
      OfferedCount(trace[..|trace| - 1], id) + (if e.Offered? then ChainCount(e.item, id) else 0)
  }

  function PromotedCount(trace: Trace, id: nat): nat {
    if trace == [] then 0
    else
      var e := trace[|trace| - 1];
      PromotedCount(trace[..|trace| - 1], id) + (if e.Promoted? && e.item.id == id then 1 else 0)
  }

  lemma {:induction false} InTailCounts(item: Item, link: Item)
    requires InTail(item, link)
    ensures TailCount(item, link.id) >= 1
    decreases item
  {
    if NextOf(item).value != link { InTailCounts(NextOf(item).value, link); }
  }

  lemma {:induction false} OfferCounts(trace: Trace, item: Item, id: nat)
    requires Offered(item) in trace
    ensures OfferedCount(trace, id) >= ChainCount(item, id)
  {
    var p, e := trace[..|trace| - 1], trace[|trace| - 1];
    assert trace == p + [e];
    if e != Offered(item) { OfferCounts(p, item, id); }
  }

  lemma {:induction false} TwoOffersCount(trace: Trace, a: Item, b: Item, id: nat)
    requires Offered(a) in trace && Offered(b) in trace && a != b
    ensures OfferedCount(trace, id) >= ChainCount(a, id) + ChainCount(b, id)
  {
    var p, e := trace[..|trace| - 1], trace[|trace| - 1];
    assert trace == p + [e];
    if e == Offered(a) {
      OfferCounts(p, b, id);
    } else if e == Offered(b) {
      OfferCounts(p, a, id);
    } else {
      TwoOffersCount(p, a, b, id);
    }
  }

  lemma {:induction false} PromotionCounts(trace: Trace, item: Item)
    requires Promoted(item) in trace
    ensures PromotedCount(trace, item.id) >= 1
  {
    var p, e := trace[..|trace| - 1], trace[|trace| - 1];
    assert trace == p + [e];
    if e != Promoted(item) { PromotionCounts(p, item); }
  }

  lemma {:induction false} TwoPromotionsCount(trace: Trace, a: Item, b: Item)
    requires Promoted(a) in trace && Promoted(b) in trace && a != b && a.id == b.id
    ensures PromotedCount(trace, a.id) >= 2
  {
    var p, e := trace[..|trace| - 1], trace[|trace| - 1];
    assert trace == p + [e];
    if e == Promoted(a) {
      PromotionCounts(p, b);
    } else if e == Promoted(b) {
      PromotionCounts(p, a);
    } else {
      TwoPromotionsCount(p, a, b);
    }
  }

  lemma NextCounts(item: Item, z: Item)
    requires NextOf(item) == Some(z)
    ensures ChainCount(item, z.id) >= ChainCount(z, z.id) == 1 + TailCount(z, z.id)
  {
  }

  /** A link has one predecessor in a chain whose ids do not repeat. */
  lemma {:induction false} OnePredecessor(item: Item, w: Item, z: Item)
    requires NextOf(item) == Some(z) && NextOf(w) == Some(z) && InChain(item, w) && ChainCount(item, z.id) <= 1
    ensures w == item
  {
    if w != item {
      NextCounts(item, z);
      InChainStep(z, w, z);
      InTailCounts(z, z);
      assert false;
    }
  }

  /** When no id was offered twice, a chain's link is promoted only right after its predecessor ended by itself. */
  lemma {:induction false} LinkFollowsItsPredecessor(trace: Trace, k: nat, y: Item, z: Item)
    requires Lawful(trace) && k < |trace| && trace[k] == Promoted(z)
    requires Offered(y) in trace && InChain(y, z) && y != z && OfferedCount(trace, z.id) <= 1
    ensures k > 0 && trace[k - 1].Ended? && Natural(trace[k - 1].how)
    ensures NextOf(trace[k - 1].item) == Some(z) && InChain(y, trace[k - 1].item)
    ensures NextOf(y) == Some(z) ==> trace[k - 1].item == y
  {
    var p := trace[..k];
    LawfulPrefix(trace, k);
    InTailCounts(y, z);
    if Offered(z) in p { TwoOffersCount(trace, y, z, z.id); }
    var w := trace[k - 1].item;
    assert p[..k - 1] == trace[..k - 1];
    LawfulPrefix(trace, k - 1);
    OpenWasPromoted(trace[..k - 1]);
    var first := PromotedWasOffered(trace, w);
    InChainStep(first, w, z);
    InTailCounts(first, z);
    if first != y { TwoOffersCount(trace, first, y, z.id); }
    if NextOf(y) == Some(z) {
      OfferCounts(trace, y, z.id);
      OnePredecessor(y, w, z);
    }
  }
}
