/**
 * The parts of github.com/zoumo/goset the generator relies on: a set of
 * strings, and its listing, whose order the library does not fix.
 */
module GoSet {
  import opened Lists

  /** Set.ToStrings: every element once, in an order the caller cannot rely on. */
  method ToStrings(s: set<string>) returns (r: seq<string>)
    ensures Elems(r) == s && Distinct(r) && |r| == |s|
  {
    r := [];
    var rest := s;
    while rest != {}
      invariant Elems(r) + rest == s
      invariant Elems(r) !! rest
      invariant Distinct(r)
      invariant |r| + |rest| == |s|
      decreases |rest|
    {
      var x :| x in rest;
      AppendFresh(r, x);
      r := r + [x];
      rest := rest - {x};
    }
  }
}
