/**
 Receive windows by scripthash (backend/app/services/payment_gateway_service.py, app/pepepow): the store
 keeps windows apart by address string, the watcher finds payments by scripthash, and the two agree.
 */
module ScripthashWindows {
  import opened Wrappers
  import opened PaymentState
  import opened PaymentTables
  import opened StoreInvariants
  import opened Creation
  import opened Base58
  import opened Text

  /** The opaque functions addresses go through: the checksum and the hash of a script. */
  datatype Hashes = Hashes(sum: seq<Byte> -> seq<Byte>, digest: seq<Byte> -> string)
  {
    /** The gateway stores the stripped address and the scripthash it decodes to. */
    predicate Names(address: string, scripthash: string) {
      Strip(address) == address && Scripthash(address, sum, digest) == Some(scripthash)
    }

    ghost predicate AllNamed(payments: map<string, Payment>) {
      forall id :: id in payments ==> Names(payments[id].address, payments[id].scripthash)
    }

    ghost predicate Normalised(steps: seq<Step>) {
      forall i :: 0 <= i < |steps| && steps[i].Create? ==> Names(steps[i].req.address, steps[i].req.scripthash)
    }
  }

  /** The only payment a step can add is the one a creation asks for. */
  lemma NewPayments(t: Tables, s: Step, id: string)
    requires id in Apply(t, s).payments && id !in t.payments
    ensures s.Create? && Apply(t, s).payments[id] == NewPayment(s.req)
  {
    match s
    case Create(req) => CreateAnatomy(t, req);
    case Refresh(other, at) => RefreshAnatomy(t, other, at);
    case _ => OtherStepsFrame(t, s);
  }

  lemma StepNames(t: Tables, s: Step, h: Hashes)
    requires h.AllNamed(t.payments) && (s.Create? ==> h.Names(s.req.address, s.req.scripthash))
    ensures h.AllNamed(Apply(t, s).payments)
  {
    StepPersists(t, s);
    forall id | id in Apply(t, s).payments
      ensures h.Names(Apply(t, s).payments[id].address, Apply(t, s).payments[id].scripthash)
    {
      if id in t.payments {
        assert SameTerms(t.payments[id], Apply(t, s).payments[id]);
      } else {
        NewPayments(t, s, id);
      }
    }
  }

  lemma {:induction false} RunNames(t: Tables, steps: seq<Step>, h: Hashes)
    requires h.AllNamed(t.payments) && h.Normalised(steps)
    ensures h.AllNamed(Run(t, steps).payments)
    decreases |steps|
  {
    if steps != [] {
      StepNames(t, steps[0], h);
      RunNames(Apply(t, steps[0]), steps[1..], h);
    }
  }

  /** When every creation went through the gateway's address check, an observation with its first-seen
      time is counted by at most one payment of a scripthash, whichever merchants own them. */
  lemma ScripthashExclusivity(steps: seq<Step>, h: Hashes, a: string, b: string, o: Observation)
    requires Injective(h.digest) && h.Normalised(steps)
    requires var t := Run(EMPTY_TABLES, steps);
      a in t.payments && b in t.payments && t.payments[a].scripthash == t.payments[b].scripthash
    requires var t := Run(EMPTY_TABLES, steps);
      Belongs(o, t.payments[a].Window()) && Belongs(o, t.payments[b].Window())
    ensures a == b
  {
    var t := Run(EMPTY_TABLES, steps);
    RunNames(EMPTY_TABLES, steps, h);
    assert h.Names(t.payments[a].address, t.payments[a].scripthash);
    assert h.Names(t.payments[b].address, t.payments[b].scripthash);
    ScripthashNamesAddress(t.payments[a].address, t.payments[b].address, h.sum, h.digest);
    WindowExclusivity(steps, a, b, o);
  }
}
