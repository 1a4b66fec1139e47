/** Writing a whole array. */
module Arrays {
  method Store<T>(a: array<T>, s: seq<T>)
    requires a.Length == |s|
    modifies a
    ensures a[..] == s
  {
    forall i | 0 <= i < |s| {
      a[i] := s[i];
    }
  }
}
