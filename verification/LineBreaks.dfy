/** The first line break of a text or of a run of bytes. */
module LineBreaks {

  /** The position of the first break, or the length. */
  function Break<T(==)>(s: seq<T>, mark: T): (i: nat)
    ensures i <= |s| && mark !in s[..i] && (i < |s| ==> s[i] == mark)
  {
    if s == [] || s[0] == mark then 0
    else
      var i := Break(s[1..], mark) + 1;
      assert s[..i] == [s[0]] + s[1..][..i - 1];
      i
  }

  lemma InPrefix<T>(s: seq<T>, i: nat, j: nat)
    ensures i < j <= |s| ==> s[i] in s[..j]
  {
    if i < j <= |s| {
      assert s[..j][i] == s[i];
    }
  }

  lemma BreakUnique<T>(s: seq<T>, mark: T, i: nat)
    requires i < |s| && s[i] == mark && mark !in s[..i]
    ensures Break(s, mark) == i
  {
    InPrefix(s, i, Break(s, mark));
    InPrefix(s, Break(s, mark), i);
  }

  lemma NoBreak<T>(s: seq<T>, mark: T)
    requires mark !in s
    ensures Break(s, mark) == |s|
  {
    assert forall j | 0 <= j < |s| :: s[j] in s;
  }
}
