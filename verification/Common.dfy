/** What several modules share. */
module Common {

  datatype Option<+T> = None | Some(value: T)

  function Min(a: int, b: int): int { if a <= b then a else b }

  function Max(a: int, b: int): int { if a <= b then b else a }

  function MinReal(a: real, b: real): real { if a <= b then a else b }

  function MaxReal(a: real, b: real): real { if a <= b then b else a }

  lemma Assoc<T>(a: seq<T>, b: seq<T>, c: seq<T>)
    ensures a + (b + c) == (a + b) + c
  {
  }

  /** Where in a sequence a test holds. */
  function Where<T>(s: seq<T>, test: T -> bool): set<nat> { set i | 0 <= i < |s| && test(s[i]) :: i }

  lemma WhereSnoc<T>(s: seq<T>, x: T, test: T -> bool)
    ensures |Where(s + [x], test)| == |Where(s, test)| + (if test(x) then 1 else 0)
  {
    var all := s + [x];
    assert all[|s|] == x && forall i :: 0 <= i < |s| ==> all[i] == s[i];
    assert Where(all, test) == if test(x) then Where(s, test) + {|s|} else Where(s, test);
  }

  /** The same for a sequence's last element. */
  lemma WhereLast<T>(s: seq<T>, test: T -> bool)
    requires s != []
    ensures |Where(s, test)| == |Where(s[..|s| - 1], test)| + (if test(s[|s| - 1]) then 1 else 0)
  {
    assert s == s[..|s| - 1] + [s[|s| - 1]];
    WhereSnoc(s[..|s| - 1], s[|s| - 1], test);
  }
}
