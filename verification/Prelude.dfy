/** Vocabulary shared by every part of the model. */
module Prelude {

  datatype Option<+T> = None | Some(value: T)

  // A wall clock reading before 2020 is taken for an unset clock.
  const TRUSTED := 1577836800

  function Max(x: int, y: int): int { if x < y then y else x }

  function Min(x: int, y: int): int { if x < y then x else y }

  function Abs(x: int): int { if x < 0 then -x else x }

  // What a vehicle state means to a ride: under way, paused, or over.
  datatype Mode = Ready | Paused | Over

  function ModeOf(state: string): Mode {
    if state == "ready-to-drive" then Ready
    else if state == "parked" || state == "hop-on" || state == "hop-on-learning" then Paused
    else Over
  }

  lemma ModesNamed(state: string)
    ensures ModeOf(state) == Ready <==> state == "ready-to-drive"
    ensures ModeOf(state) == Paused <==> state in {"parked", "hop-on", "hop-on-learning"}
  {
  }

  // Byte-wise text order, the order SQLite gives TEXT columns.
  predicate Before(a: string, b: string) {
    b != [] && (a == [] || a[0] < b[0] || (a[0] == b[0] && Before(a[1..], b[1..])))
  }

  lemma {:induction false} BeforeTotal(a: string, b: string)
    ensures Before(a, b) || a == b || Before(b, a)
  {
    if a != [] && b != [] && a[0] == b[0] {
      BeforeTotal(a[1..], b[1..]);
      assert a == [a[0]] + a[1..] && b == [b[0]] + b[1..];
    }
  }

  lemma {:induction false} BeforeAsymmetric(a: string, b: string)
    requires Before(a, b)
    ensures !Before(b, a) && a != b
  {
    if a != [] && a[0] == b[0] {
      BeforeAsymmetric(a[1..], b[1..]);
    }
  }

  lemma {:induction false} BeforeTransitive(a: string, b: string, c: string)
    requires Before(a, b) && Before(b, c)
    ensures Before(a, c)
  {
    if a != [] && a[0] == b[0] == c[0] {
      BeforeTransitive(a[1..], b[1..], c[1..]);
    }
  }

  // The texts agree up to k, where a ends or has the smaller character.
  predicate Parts(a: string, b: string, k: nat) {
    k <= |a| && k < |b| && a[..k] == b[..k] && (k == |a| || a[k] < b[k])
  }

  lemma {:induction false} BeforeParts(a: string, b: string) returns (k: nat)
    requires Before(a, b)
    ensures Parts(a, b, k)
  {
    if a == [] || a[0] < b[0] {
      k := 0;
    } else {
      var m := BeforeParts(a[1..], b[1..]);
      k := m + 1;
      assert a[..k] == [a[0]] + a[1..][..m] && b[..k] == [b[0]] + b[1..][..m];
    }
  }

  lemma {:induction false} PartsBefore(a: string, b: string, k: nat)
    requires Parts(a, b, k)
    ensures Before(a, b)
  {
    if k > 0 {
      assert a[..k][0] == b[..k][0];
      assert a[1..][..k - 1] == a[..k][1..] && b[1..][..k - 1] == b[..k][1..];
      PartsBefore(a[1..], b[1..], k - 1);
    }
  }

  // The order in words: at the first difference the smaller character, or the end of the
  // text, comes first.
  lemma BeforeMeans(a: string, b: string)
    ensures Before(a, b) <==> exists k: nat :: Parts(a, b, k)
  {
    if Before(a, b) {
      var k := BeforeParts(a, b);
    }
    if k: nat :| Parts(a, b, k) {
      PartsBefore(a, b, k);
    }
  }
}
