/** The order a listing must come in: by creation time, then by identifier. */
module ListingOrder {

  /** Bytewise order of two texts. */
  predicate TextBefore(a: string, b: string) {
    b != "" && (a == "" || a[0] < b[0] || (a[0] == b[0] && TextBefore(a[1..], b[1..])))
  }

  lemma {:induction false} TextOrderIsTotal(a: string, b: string)
    ensures a == b || TextBefore(a, b) || TextBefore(b, a)
    ensures !(TextBefore(a, b) && TextBefore(b, a)) && !TextBefore(a, a)
  {
    if a != "" && b != "" {
      TextOrderIsTotal(a[1..], b[1..]);
      TextOrderIsTotal(a[1..], a[1..]);
      assert a[0] == b[0] && a[1..] == b[1..] ==> a == [a[0]] + a[1..] == b;
    } else if a != "" {
      TextOrderIsTotal(a[1..], a[1..]);
    }
  }

  lemma {:induction false} TextOrderIsTransitive(a: string, b: string, c: string)
    requires TextBefore(a, b) && TextBefore(b, c)
    ensures TextBefore(a, c)
  {
    if a != "" && a[0] == b[0] == c[0] {
      TextOrderIsTransitive(a[1..], b[1..], c[1..]);
    }
  }

  datatype Stamp = Stamp(createdAt: int, id: string)

  predicate Before(a: Stamp, b: Stamp) {
    a.createdAt < b.createdAt || (a.createdAt == b.createdAt && TextBefore(a.id, b.id))
  }

  /** If nothing jumps back from one to the next, nothing jumps back further on. */
  lemma NotBackIsTransitive(a: Stamp, b: Stamp, c: Stamp)
    requires !Before(b, a) && !Before(c, b)
    ensures !Before(c, a)
  {
    TextOrderIsTotal(a.id, b.id);
    TextOrderIsTotal(b.id, c.id);
    TextOrderIsTotal(a.id, c.id);
    if Before(c, a) && a.createdAt == b.createdAt == c.createdAt {
      if TextBefore(a.id, b.id) { TextOrderIsTransitive(c.id, a.id, b.id); }
    }
  }

  /** `slices.IsSortedFunc`: it compares neighbours only, yet decides the order of all pairs. */
  method IsOrdered(stamps: seq<Stamp>) returns (ordered: bool)
    ensures ordered <==> forall i, j | 0 <= i < j < |stamps| :: !Before(stamps[j], stamps[i])
  {
    var n := |stamps| - 1;
    while n > 0
      invariant n <= |stamps| - 1 && (stamps != [] ==> 0 <= n)
      invariant forall i, j | 0 <= i < j < |stamps| && n <= i :: !Before(stamps[j], stamps[i])
    {
      if Before(stamps[n], stamps[n - 1]) {
        return false;
      }
      forall j | n - 1 < j < |stamps|
        ensures !Before(stamps[j], stamps[n - 1])
      {
        if j > n { NotBackIsTransitive(stamps[n - 1], stamps[n], stamps[j]); }
      }
      n := n - 1;
    }
    return true;
  }
}
