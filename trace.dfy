/**
 * What a fetch loop does to the outside world, recorded instead of performed: each
 * `time.sleep` and each HTTP request, in the order they happen.
 */
module Trace {

  datatype Event = Sleep(seconds: real) | HttpGet(url: string)

  function Pow2(k: nat): (p: nat)
    ensures p >= 1
  {
    if k == 0 then 1 else 2 * Pow2(k - 1)
  }

  /** The number of requests a trace makes. */
  function Requests(t: seq<Event>): (n: nat)
    ensures n <= |t|
  {
    if t == [] then 0 else Requests(t[..|t| - 1]) + (if t[|t| - 1].HttpGet? then 1 else 0)
  }

  lemma RequestsSingle(e: Event)
    ensures Requests([e]) == if e.HttpGet? then 1 else 0
  {
    assert [e][..0] == [];
  }

  lemma {:induction false} RequestsAppend(a: seq<Event>, b: seq<Event>)
    ensures Requests(a + b) == Requests(a) + Requests(b)
  {
    if b != [] {
      assert (a + b)[..|a + b| - 1] == a + b[..|b| - 1];
      RequestsAppend(a, b[..|b| - 1]);
    } else {
      assert a + b == a;
    }
  }

  /** The seconds a trace spends asleep. */
  function Slept(t: seq<Event>): real
  {
    if t == [] then 0.0 else Slept(t[..|t| - 1]) + (if t[|t| - 1].Sleep? then t[|t| - 1].seconds else 0.0)
  }

  lemma {:induction false} SleptAppend(a: seq<Event>, b: seq<Event>)
    ensures Slept(a + b) == Slept(a) + Slept(b)
  {
    if b != [] {
      assert (a + b)[..|a + b| - 1] == a + b[..|b| - 1];
      SleptAppend(a, b[..|b| - 1]);
    } else {
      assert a + b == a;
    }
  }

  /** A request followed by a pause of `x` seconds. */
  lemma RequestThenSleep(url: string, x: real)
    ensures Requests([HttpGet(url), Sleep(x)]) == 1
    ensures Slept([HttpGet(url), Sleep(x)]) == x
  {
    var block := [HttpGet(url), Sleep(x)];
    assert block[..1] == [HttpGet(url)];
    assert block[..1][..0] == [];
    assert Requests(block[..1]) == 1 && Slept(block[..1]) == 0.0;
  }
}
