/** Vocabulary shared by every part of the model: optional values, the abstract
    handles that stand for C pointers and protocol objects, the display mode, and
    the sequence helpers the contracts are written with. */
module Types {

  datatype Option<T> = None | Some(value: T)

  /** An `ember_surface`, named by its wl_surface resource. */
  type SurfaceId = nat
  /** A connected Wayland client. */
  type ClientId = nat
  /** Any other protocol object (keyboard, pointer, callback, output, seat, ...). */
  type ResourceId = nat

  /** Where every surface is assumed to sit, in both directions: the renderer
      draws surfaces at this pixel position and input dispatch subtracts it to
      make surface-local coordinates. */
  const Origin: real := 100.0

  /** The part of `drmModeModeInfo` the compositor reads. */
  datatype Mode = Mode(hdisplay: nat, vdisplay: nat, vrefresh: nat)

  /** A mode that covers at least one pixel in each direction. */
  predicate Visible(mode: Mode) {
    mode.hdisplay > 0 && mode.vdisplay > 0
  }

  predicate NoDuplicates<T(==)>(s: seq<T>) {
    forall i, j :: 0 <= i < j < |s| ==> s[i] != s[j]
  }

  function Reverse<T>(s: seq<T>): (r: seq<T>)
    ensures |r| == |s|
    ensures forall i :: 0 <= i < |s| ==> r[i] == s[|s| - 1 - i]
  {
    if s == [] then [] else Reverse(s[1..]) + [s[0]]
  }

  lemma {:induction false} ReverseAppend<T>(a: seq<T>, b: seq<T>)
    ensures Reverse(a + b) == Reverse(b) + Reverse(a)
  {
    var r, q := Reverse(a + b), Reverse(b) + Reverse(a);
    assert |r| == |q|;
    forall i | 0 <= i < |r| ensures r[i] == q[i] {
      if i < |b| {
        assert q[i] == Reverse(b)[i];
      } else {
        assert q[i] == Reverse(a)[i - |b|];
      }
    }
  }

  /** The values `from + 1, from + 2, ...`, one per element: what a counter
      that is incremented before each use hands out. */
  predicate Consecutive(s: seq<nat>, from: nat) {
    forall i :: 0 <= i < |s| ==> s[i] == from + 1 + i
  }

  lemma ConsecutiveAppend(a: seq<nat>, b: seq<nat>, from: nat)
    requires Consecutive(a, from) && Consecutive(b, from + |a|)
    ensures Consecutive(a + b, from)
  {
    forall i | 0 <= i < |a + b| ensures (a + b)[i] == from + 1 + i {
      if i >= |a| {
        assert (a + b)[i] == b[i - |a|];
      }
    }
  }
}
