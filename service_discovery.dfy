/**
 The API gateway's service registry: each service name maps to the list of
 its replica URLs, and a per-service cursor hands the replicas out in
 round-robin order.

 The two dictionaries are captured as one value, `Registry`; the functions
 `StepRegister`, `StepNext` and `StepUnregister` say what each operation does
 to that value, and the class `ServiceDiscovery` updates its two maps in place
 and is proved to follow those functions.
 */
module Discovery {

  type Name = string
  type Url = string

  datatype Option<T> = None | Some(value: T)

  /** The two dictionaries of the registry, as a value. */
  datatype Registry = Registry(services: map<Name, seq<Url>>, indexes: map<Name, nat>)

  /** What `getNextServiceUrl` returns (None for null), and the registry it
      leaves behind. */
  datatype Pick = Pick(url: Option<Url>, next: Registry)

  /** The registry's invariant: both dictionaries have the same keys, and every
      cursor over a non-empty replica list points into that list. */
  predicate Inv(r: Registry)
  {
    && r.services.Keys == r.indexes.Keys
    && forall n :: n in r.services && r.services[n] != [] ==> r.indexes[n] < |r.services[n]|
  }

  /** `n` has the same entry (or the same absence of one) in both dictionaries
      of `r` and `r'`. */
  predicate SameEntry(r: Registry, r': Registry, n: Name)
  {
    && (n in r.services <==> n in r'.services)
    && (n in r.services ==> r.services[n] == r'.services[n])
    && (n in r.indexes <==> n in r'.indexes)
    && (n in r.indexes ==> r.indexes[n] == r'.indexes[n])
  }

  /** The registry the constructor builds. */
  function Empty(): (r: Registry)
    ensures Inv(r)
    ensures forall n :: n !in r.services && n !in r.indexes
  {
    Registry(map[], map[])
  }

  /** `register`: (re)binds `name` to `replicas` and restarts its cursor. */
  function StepRegister(r: Registry, name: Name, replicas: seq<Url>): (r': Registry)
    ensures name in r'.services && r'.services[name] == replicas
    ensures name in r'.indexes && r'.indexes[name] == 0
    ensures forall n :: n != name ==> SameEntry(r, r', n)
    ensures Inv(r) ==> Inv(r')
  {
    Registry(r.services[name := replicas], r.indexes[name := 0])
  }

  /** `getNextServiceUrl`: the replica under the cursor, which then advances
      by one, wrapping around at the end of the list. */
  function StepNext(r: Registry, name: Name): (p: Pick)
    requires Inv(r)
    // null exactly for an unknown name or an empty replica list, and then nothing changes
    ensures p.url == None <==> name !in r.services || r.services[name] == []
    ensures p.url == None ==> p.next == r
    // otherwise the replica under the cursor, and the cursor moves on by one
    ensures p.url != None ==> p.url.value == r.services[name][r.indexes[name]]
    ensures p.url != None ==> p.url.value in r.services[name]
    ensures p.url != None ==>
              p.next.indexes == r.indexes[name := (r.indexes[name] + 1) % |r.services[name]|]
    // the replica lists and every other service's cursor are untouched
    ensures p.next.services == r.services
    ensures forall n :: n != name ==> SameEntry(r, p.next, n)
    ensures Inv(p.next)
  {
    if name !in r.services || r.services[name] == [] then Pick(None, r)
    else
      var replicas := r.services[name];
      var current := r.indexes[name];
      Pick(Some(replicas[current]),
           r.(indexes := r.indexes[name := (current + 1) % |replicas|]))
  }

  /** `unregister`: forgets `name` in both dictionaries. */
  function StepUnregister(r: Registry, name: Name): (r': Registry)
    ensures name !in r'.services && name !in r'.indexes
    ensures forall n :: n != name ==> SameEntry(r, r', n)
    ensures Inv(r) ==> Inv(r')
  {
    Registry(r.services - {name}, r.indexes - {name})
  }

  /** After `unregister`, `getNextServiceUrl` returns null for that name. */
  lemma UnregisteredGivesNull(r: Registry, name: Name)
    requires Inv(r)
    ensures StepNext(StepUnregister(r, name), name) == Pick(None, StepUnregister(r, name))
  {
  }

  /** The answers of `k` consecutive `getNextServiceUrl(name)` calls, and the
      registry after them. */
  datatype Run = Run(urls: seq<Option<Url>>, last: Registry)

  /** `k` consecutive `getNextServiceUrl(name)` calls starting from `r`. */
  function Pulls(r: Registry, name: Name, k: nat): (run: Run)
    requires Inv(r)
    ensures Inv(run.last)
    decreases k
  {
    if k == 0 then Run([], r)
    else
      var p := StepNext(r, name);
      var rest := Pulls(p.next, name, k - 1);
      Run([p.url] + rest.urls, rest.last)
  }

  /** A positive multiple of `n` is at least `n`. */
  lemma {:induction false} MulAtLeast(d: nat, n: nat)
    requires d >= 1
    ensures d * n >= n
  {
    if d > 1 {
      MulAtLeast(d - 1, n);
      assert d * n == (d - 1) * n + n;
    }
  }

  /** Euclidean division by `n` is unique: `q * n + r` with `r < n` leaves remainder `r`. */
  lemma ModUnique(a: nat, q: nat, r: nat, n: nat)
    requires n > 0 && r < n && a == q * n + r
    ensures a % n == r
  {
    var q', r' := a / n, a % n;
    assert a == q' * n + r';
    if q' < q {
      MulAtLeast(q - q', n);
    } else if q' > q {
      MulAtLeast(q' - q, n);
    }
  }

  /** A number below the modulus is its own remainder. */
  lemma ModBelow(x: nat, n: nat)
    requires x < n
    ensures x % n == x
  {
  }

  /** Adding the modulus does not change the remainder. */
  lemma ModAddModulus(x: nat, n: nat)
    requires n > 0
    ensures (x + n) % n == x % n
  {
    var q, r := x / n, x % n;
    assert x + n == (q + 1) * n + r;
    ModUnique(x + n, q + 1, r, n);
  }

  /** Moving the cursor on by one and then `b` places is moving it on by `b + 1`. */
  lemma NextCursorShift(c: nat, b: nat, n: nat)
    requires c < n
    ensures ((c + 1) % n + b) % n == (c + 1 + b) % n
  {
    if c + 1 < n {
      ModBelow(c + 1, n);
    } else {
      ModUnique(c + 1, 1, 0, n);
      assert (c + 1) % n + b == b;
      assert c + 1 + b == b + n;
      ModAddModulus(b, n);
    }
  }

  /** One call followed by `k - 1` more is `k` calls. */
  lemma PullsUnfold(r: Registry, name: Name, k: nat)
    requires Inv(r) && name in r.services && r.services[name] != [] && k > 0
    ensures Pulls(r, name, k).urls
            == [Some(r.services[name][r.indexes[name]])] + Pulls(StepNext(r, name).next, name, k - 1).urls
    ensures Pulls(r, name, k).last == Pulls(StepNext(r, name).next, name, k - 1).last
  {
  }

  /** The cursor after `k` calls has moved on by `k` places, modulo the number
      of replicas; nothing else in the registry changes. */
  lemma {:induction false} PullsCursor(r: Registry, name: Name, k: nat)
    requires Inv(r) && name in r.services && r.services[name] != []
    ensures Pulls(r, name, k).last
            == r.(indexes := r.indexes[name := (r.indexes[name] + k) % |r.services[name]|])
    decreases k
  {
    var c, n := r.indexes[name], |r.services[name]|;
    assert c < n;
    ModBelow(c, n);
    if k == 0 {
      assert r.indexes[name := c] == r.indexes;
    } else {
      var r1 := StepNext(r, name).next;
      PullsUnfold(r, name, k);
      PullsCursor(r1, name, k - 1);
      NextCursorShift(c, k - 1, n);
      assert r1.indexes[name := (c + k) % n] == r.indexes[name := (c + k) % n];
    }
  }

  /** Round robin from any state: `k` consecutive calls return the replicas
      from the cursor onwards, wrapping around at the end of the list. */
  lemma {:induction false} PullsCycle(r: Registry, name: Name, k: nat)
    requires Inv(r) && name in r.services && r.services[name] != []
    ensures |Pulls(r, name, k).urls| == k
    ensures forall i :: 0 <= i < k ==>
              Pulls(r, name, k).urls[i]
              == Some(r.services[name][(r.indexes[name] + i) % |r.services[name]|])
    decreases k
  {
    var replicas, c, n := r.services[name], r.indexes[name], |r.services[name]|;
    assert c < n;
    ModBelow(c, n);
    if k > 0 {
      var r1 := StepNext(r, name).next;
      assert r1.services == r.services && r1.indexes[name] == (c + 1) % n;
      PullsUnfold(r, name, k);
      PullsCycle(r1, name, k - 1);
      var rest := Pulls(r1, name, k - 1).urls;
      forall i | 0 <= i < k
        ensures Pulls(r, name, k).urls[i] == Some(replicas[(c + i) % n])
      {
        if i > 0 {
          assert Pulls(r, name, k).urls[i] == rest[i - 1];
          NextCursorShift(c, i - 1, n);
        }
      }
    }
  }

  /** Round robin right after registration: `n` consecutive calls return the
      `n` replicas in order. */
  lemma RoundRobinAfterRegister(r: Registry, name: Name, replicas: seq<Url>)
    requires Inv(r) && replicas != []
    ensures Inv(StepRegister(r, name, replicas))
    ensures |Pulls(StepRegister(r, name, replicas), name, |replicas|).urls| == |replicas|
    ensures forall i :: 0 <= i < |replicas| ==>
              Pulls(StepRegister(r, name, replicas), name, |replicas|).urls[i] == Some(replicas[i])
  {
    var r0 := StepRegister(r, name, replicas);
    var n := |replicas|;
    PullsCycle(r0, name, n);
    forall i | 0 <= i < n
      ensures Pulls(r0, name, n).urls[i] == Some(replicas[i])
    {
      ModBelow(0 + i, n);
    }
  }

  /** Right after registration, `n` consecutive calls leave the registry
      exactly as registration left it: the cursor is back at the start. */
  lemma RoundRobinReturnsToStart(r: Registry, name: Name, replicas: seq<Url>)
    requires Inv(r) && replicas != []
    ensures Inv(StepRegister(r, name, replicas))
    ensures Pulls(StepRegister(r, name, replicas), name, |replicas|).last
            == StepRegister(r, name, replicas)
  {
    var r0 := StepRegister(r, name, replicas);
    var n := |replicas|;
    PullsCursor(r0, name, n);
    ModUnique(n, 1, 0, n);
    assert r0.indexes[name := 0] == r0.indexes;
  }

  /** Fairness: from any state, `n` consecutive calls on a service with `n`
      replicas hand out every one of its replicas; replica `j` is the answer
      of call number `i` (counting from 0). */
  lemma EveryReplicaServed(r: Registry, name: Name, j: nat) returns (i: nat)
    requires Inv(r) && name in r.services && j < |r.services[name]|
    ensures i < |r.services[name]| == |Pulls(r, name, |r.services[name]|).urls|
    ensures Pulls(r, name, |r.services[name]|).urls[i] == Some(r.services[name][j])
  {
    var c, n := r.indexes[name], |r.services[name]|;
    i := StepsToReach(c, j, n);
    PullsCycle(r, name, n);
  }

  /** From cursor `c`, position `j` is reached after fewer than `n` steps. */
  lemma StepsToReach(c: nat, j: nat, n: nat) returns (i: nat)
    requires c < n && j < n
    ensures i < n && (c + i) % n == j
  {
    ModBelow(j, n);
    if j >= c {
      i := j - c;
    } else {
      i := j + n - c;
      ModAddModulus(j, n);
    }
  }

  /** The registry object; its two dictionaries are updated in place. */
  class ServiceDiscovery {
    var services: map<Name, seq<Url>>
    var indexes: map<Name, nat>

    /** The object's fields as a value. */
    function Snap(): Registry
      reads this
    {
      Registry(services, indexes)
    }

    ghost predicate Valid()
      reads this
    {
      Inv(Snap())
    }

    constructor()
      ensures Valid()
      ensures Snap() == Empty()
    {
      services := map[];
      indexes := map[];
    }

    /** Registers (or re-registers) `name` with its replicas. */
    method Register(name: Name, replicas: seq<Url>)
      requires Valid()
      modifies this
      ensures Valid()
      ensures Snap() == StepRegister(old(Snap()), name, replicas)
      ensures services == old(services)[name := replicas]
      ensures indexes == old(indexes)[name := 0]
    {
      services := services[name := replicas];
      indexes := indexes[name := 0];
    }

    /** The next replica of `name` in round-robin order, or None when the name
        is unknown or has no replicas. */
    method GetNextServiceUrl(name: Name) returns (url: Option<Url>)
      requires Valid()
      modifies this
      ensures Valid()
      ensures StepNext(old(Snap()), name) == Pick(url, Snap())
      ensures services == old(services)
    {
      if name !in services || |services[name]| == 0 {
        return None;
      }
      var replicas := services[name];
      var currentIndex := indexes[name];
      url := Some(replicas[currentIndex]);
      indexes := indexes[name := (currentIndex + 1) % |replicas|];
    }

    /** Forgets `name`. */
    method Unregister(name: Name)
      requires Valid()
      modifies this
      ensures Valid()
      ensures Snap() == StepUnregister(old(Snap()), name)
      ensures services == old(services) - {name} && indexes == old(indexes) - {name}
    {
      services := services - {name};
      indexes := indexes - {name};
    }
  }

  /** A caller's view: two replicas are handed out alternately, and an
      unregistered service yields None. */
  method DiscoveryScenario()
  {
    var sd := new ServiceDiscovery();
    sd.Register("users", ["http://a", "http://b"]);
    var u1 := sd.GetNextServiceUrl("users");
    var u2 := sd.GetNextServiceUrl("users");
    var u3 := sd.GetNextServiceUrl("users");
    assert u1 == Some("http://a") && u2 == Some("http://b") && u3 == Some("http://a");
    sd.Unregister("users");
    var u4 := sd.GetNextServiceUrl("users");
    assert u4 == None;
  }
}
