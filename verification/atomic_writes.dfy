/**
 A series of atomic writes to a disk: its end, and the disk after every single
 write, one of which a crash leaves behind.
 */
module AtomicWrites {
  function PerformAll<D, W>(perform: (D, W) -> D, d: D, ws: seq<W>): D
    decreases |ws|
  {
    if ws == [] then d else PerformAll(perform, perform(d, ws[0]), ws[1..])
  }

  ghost function Stages<D, W>(perform: (D, W) -> D, d: D, ws: seq<W>): seq<D>
    decreases |ws|
  {
    if ws == [] then [] else [perform(d, ws[0])] + Stages(perform, perform(d, ws[0]), ws[1..])
  }

  lemma NoWrites<D, W>(perform: (D, W) -> D, d: D)
    ensures PerformAll(perform, d, []) == d && Stages(perform, d, []) == []
  {
  }

  lemma OneMore<D, W>(perform: (D, W) -> D, d: D, w: W, ws: seq<W>)
    ensures PerformAll(perform, d, [w] + ws) == PerformAll(perform, perform(d, w), ws)
    ensures Stages(perform, d, [w] + ws) == [perform(d, w)] + Stages(perform, perform(d, w), ws)
  {
    assert ([w] + ws)[1..] == ws;
  }

  lemma UpToThree<D, W>(perform: (D, W) -> D, d: D, a: W, b: W, c: W)
    ensures var x := perform(d, a); var y := perform(x, b); var z := perform(y, c);
            && PerformAll(perform, d, [a]) == x && PerformAll(perform, d, [a, b]) == y && PerformAll(perform, d, [a, b, c]) == z
            && Stages(perform, d, [a]) == [x] && Stages(perform, d, [a, b]) == [x, y] && Stages(perform, d, [a, b, c]) == [x, y, z]
  {
    var x := perform(d, a);
    var y := perform(x, b);
    OneMore(perform, d, a, []);
    OneMore(perform, d, a, [b]);
    OneMore(perform, d, a, [b, c]);
    OneMore(perform, x, b, []);
    OneMore(perform, x, b, [c]);
    OneMore(perform, y, c, []);
  }
}
