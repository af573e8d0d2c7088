/** Lists of idle sockets without repetition. */
module WaiterList {
  ghost predicate NoDup(s: seq<nat>) { forall i, j :: 0 <= i < j < |s| ==> s[i] != s[j] }

  function Without(ws: seq<nat>, w: nat): seq<nat> {
    if ws == [] then [] else if ws[0] == w then ws[1..] else [ws[0]] + Without(ws[1..], w)
  }

  lemma {:induction false} WithoutElems(ws: seq<nat>, w: nat)
    requires NoDup(ws)
    ensures forall k :: k in Without(ws, w) <==> k in ws && k != w
    ensures NoDup(Without(ws, w))
  {
    if ws != [] {
      var r := Without(ws[1..], w);
      WithoutElems(ws[1..], w);
      assert forall k :: k in ws <==> k == ws[0] || k in ws[1..];
      if ws[0] != w {
        assert ws[0] !in r;
        assert forall i :: 0 < i < |[ws[0]] + r| ==> ([ws[0]] + r)[i] == r[i - 1];
      }
    }
  }
}
