/** The counters count: each recursive counter is the number of places it claims to count. */
module Counting {
  import opened Events
  import opened SequenceValidator
  import opened Store
  import opened ReplayProtocol
  import opened Kafka

  /** The positions at which `p` holds. */
  function Places<T>(p: T -> bool, xs: seq<T>): set<int> {
    set i | 0 <= i < |xs| && p(xs[i])
  }

  lemma PlacesLast<T>(p: T -> bool, xs: seq<T>)
    requires xs != []
    ensures |Places(p, xs)| == |Places(p, Front(xs))| + (if p(Last(xs)) then 1 else 0)
  {
    var n, before := |xs| - 1, Places(p, Front(xs));
    forall i ensures i in Places(p, xs) <==> i in before || (i == n && p(xs[n])) {
      assert 0 <= i < n ==> Front(xs)[i] == xs[i];
    }
    assert Places(p, xs) == if p(xs[n]) then before + {n} else before;
  }

  /** `p` picks the decoded rows of one symbol, or of all symbols. */
  ghost predicate PicksSymbol(p: Record -> bool, filter: string) {
    forall rec :: p(rec) <==> rec.Good? && (filter == "" || rec.event.symbol == filter)
  }

  /** The events a run counts are the decoded rows of the symbol it is filtered to. */
  lemma {:induction false} SelectedAreCounted(filter: string, rs: seq<Record>, p: Record -> bool)
    requires PicksSymbol(p, filter)
    ensures CountSelected(filter, rs) == |Places(p, rs)|
  {
    if rs != [] {
      SelectedAreCounted(filter, Front(rs), p);
      PlacesLast(p, rs);
    }
  }

  lemma {:induction false} KindsAreCounted(kind: FailureKind, fs: seq<Failure>, p: Failure -> bool)
    requires forall f :: p(f) <==> f.kind == kind
    ensures CountKind(kind, fs) == |Places(p, fs)|
  {
    if fs != [] {
      KindsAreCounted(kind, Front(fs), p);
      PlacesLast(p, fs);
    }
  }

  lemma {:induction false} TypesAreCounted(name: string, es: seq<ValidationError>, p: ValidationError -> bool)
    requires forall e :: p(e) <==> e.kind == name
    ensures CountType(name, es) == |Places(p, es)|
  {
    if es != [] {
      TypesAreCounted(name, Front(es), p);
      PlacesLast(p, es);
    }
  }

  lemma {:induction false} RejectedAreCounted(outs: seq<Output>, p: Output -> bool)
    requires forall o :: p(o) <==> o.Rejected?
    ensures CountRejected(outs) == |Places(p, outs)|
  {
    if outs != [] {
      RejectedAreCounted(Front(outs), p);
      PlacesLast(p, outs);
    }
  }
}
