/**
 * The particle system of earth.js's animate: particles drift through the
 * interpolated vector field, age by one each frame, and are re-seeded at a
 * random defined point once they are too old. Each frame, evolve sorts the
 * particles whose next step stays in the field into colour buckets by wind
 * intensity; draw then strokes those trails and moves the particles to their
 * ends.
 */
module Particles {
  import opened Wrappers
  import opened Fields

  /** MAX_PARTICLE_AGE: frames a particle is drawn before it is regenerated. */
  const MaxAge: int := 100

  /**
   * A particle: its position, the end of its current trail (xt, yt), and its
   * age in frames.
   */
  datatype Particle = Particle(x: real, y: real, xt: real, yt: real, age: int)

  /** A new particle: placed by randomize, its trail not yet begun, with the given age. */
  function Spawned(columns: Columns, draw: nat -> Point, age: int): Particle
  {
    var q := Randomized(columns, draw);
    Particle(q.x as real, q.y as real, q.x as real, q.y as real, age)
  }

  /** field.randomize(particle): move the particle to a random defined point. */
  function Reseeded(columns: Columns, p: Particle, draw: nat -> Point): Particle
  {
    var q := Randomized(columns, draw);
    p.(x := q.x as real, y := q.y as real)
  }

  /** The first half of evolve's step: a particle older than MAX_PARTICLE_AGE is reseeded at age 0. */
  function Prepared(columns: Columns, p: Particle, draw: nat -> Point): (r: Particle)
    ensures p.age > MaxAge ==> r.age == 0 && r.xt == p.xt && r.yt == p.yt
    ensures p.age > MaxAge ==> r.x == Randomized(columns, draw).x as real && r.y == Randomized(columns, draw).y as real
    ensures p.age <= MaxAge ==> r == p
  {
    if p.age > MaxAge then Reseeded(columns, p, draw).(age := 0) else p
  }

  /**
   * The rest of evolve's step: the particle's new state and the bucket it is
   * drawn in, if any. indexFor is colorStyles.indexFor.
   */
  function Advanced(columns: Columns, p: Particle, indexFor: real -> nat): (r: (Particle, Option<nat>))
    ensures r.0.age == if IsDefined(columns, p.x, p.y) then p.age + 1 else MaxAge + 1
    ensures r.1.Some? ==> && IsDefined(columns, p.x, p.y) && IsDefined(columns, r.0.xt, r.0.yt)
                          && r.0.x == p.x && r.0.y == p.y && r.1.value == indexFor(Lookup(columns, p.x, p.y).m)
    ensures r.1.None? && IsDefined(columns, p.x, p.y) ==> !IsDefined(columns, r.0.x, r.0.y)
  {
    var v := Lookup(columns, p.x, p.y);
    if !v.Defined? then
      // m === null for both sentinels: the particle has escaped the grid
      (p.(age := MaxAge + 1), None)
    else
      var xt := p.x + v.u;
      var yt := p.y + v.v;
      if IsDefined(columns, xt, yt) then (p.(xt := xt, yt := yt, age := p.age + 1), Some(indexFor(v.m)))
      else (p.(x := xt, y := yt, age := p.age + 1), None)
  }

  /** One particle in one evolve step; draw is the random source of its randomize call. */
  function Evolved(columns: Columns, p: Particle, draw: nat -> Point, indexFor: real -> nat): (r: (Particle, Option<nat>))
    ensures 0 <= p.age ==> 1 <= r.0.age <= MaxAge + 1
  {
    Advanced(columns, Prepared(columns, p, draw), indexFor)
  }

  /** All particles after evolve; draws(i) is particle i's random source. */
  function EvolvedAll(columns: Columns, ps: seq<Particle>, draws: nat -> nat -> Point, indexFor: real -> nat): (r: seq<Particle>)
    ensures |r| == |ps|
  {
    seq(|ps|, i requires 0 <= i < |ps| => Evolved(columns, ps[i], draws(i), indexFor).0)
  }

  /** The bucket each particle joins in evolve, if any. */
  function Outcomes(columns: Columns, ps: seq<Particle>, draws: nat -> nat -> Point, indexFor: real -> nat): (r: seq<Option<nat>>)
    ensures |r| == |ps|
  {
    seq(|ps|, i requires 0 <= i < |ps| => Evolved(columns, ps[i], draws(i), indexFor).1)
  }

  /** Bucket b: the indices of the particles that joined it, in the order they were pushed. */
  function Bucket(outs: seq<Option<nat>>, b: nat): (r: seq<nat>)
    ensures |r| <= |outs|
    ensures forall j :: 0 <= j < |r| ==> r[j] < |outs|
    decreases |outs|
  {
    if |outs| == 0 then []
    else Bucket(outs[..|outs| - 1], b) + (if outs[|outs| - 1] == Some(b) then [|outs| - 1] else [])
  }

  /** Evolving particle i pushes it onto its bucket and no other. */
  lemma BucketPush(outs: seq<Option<nat>>, i: nat, b: nat)
    requires i < |outs|
    ensures Bucket(outs[..i + 1], b) == Bucket(outs[..i], b) + (if outs[i] == Some(b) then [i] else [])
  {
    assert outs[..i + 1][..i] == outs[..i];
  }

  /** The number of particles that joined some bucket. */
  function Drawn(outs: seq<Option<nat>>): nat
    decreases |outs|
  {
    if |outs| == 0 then 0 else Drawn(outs[..|outs| - 1]) + (if outs[|outs| - 1].Some? then 1 else 0)
  }

  /** The total size of buckets 0 .. n - 1. */
  function SizeOfBuckets(outs: seq<Option<nat>>, n: nat): nat
  {
    if n == 0 then 0 else SizeOfBuckets(outs, n - 1) + |Bucket(outs, n - 1)|
  }

  // ---------------------------------------------------------------------------
  // One particle

  /**
   * The age rule: a particle older than MAX_PARTICLE_AGE starts again at age 0,
   * a particle whose position has no defined vector gets MAX_PARTICLE_AGE, and
   * then every particle ages by exactly one.
   */
  lemma AgeRule(columns: Columns, p: Particle, draw: nat -> Point, indexFor: real -> nat)
    ensures var r := Evolved(columns, p, draw, indexFor).0;
      var p1 := Prepared(columns, p, draw);
      && r.age == (if !IsDefined(columns, p1.x, p1.y) then MaxAge else if p.age > MaxAge then 0 else p.age) + 1
      && (p.age >= 0 ==> 1 <= r.age <= MaxAge + 1)
  {
  }

  /**
   * A particle that escaped the field ends the frame at MAX_PARTICLE_AGE + 1,
   * so the next frame regenerates it: it then behaves as a fresh particle of
   * age 0 at its randomized position.
   */
  lemma EscapedRegenerates(columns: Columns, p: Particle, draw: nat -> Point, next: nat -> Point, indexFor: real -> nat)
    requires var p1 := Prepared(columns, p, draw);
      !IsDefined(columns, p1.x, p1.y)
    ensures var r := Evolved(columns, p, draw, indexFor).0;
      && r.age == MaxAge + 1
      && Evolved(columns, r, next, indexFor) == Evolved(columns, Reseeded(columns, r, next).(age := 0), next, indexFor)
  {
    var r := Evolved(columns, p, draw, indexFor).0;
    var reborn := Reseeded(columns, r, next).(age := 0);
    assert Prepared(columns, r, next) == reborn;
    assert Prepared(columns, reborn, next) == reborn;
  }

  /**
   * The trail rule: a particle whose next point (x + u, y + v) is defined keeps
   * its position, gets that point as its trail end, and joins exactly the
   * bucket of its intensity; any other particle with a defined vector moves to
   * its next point and joins no bucket.
   */
  lemma TrailRule(columns: Columns, p: Particle, draw: nat -> Point, indexFor: real -> nat)
    ensures var p1 := Prepared(columns, p, draw);
      var v := Lookup(columns, p1.x, p1.y);
      var r := Evolved(columns, p, draw, indexFor);
      && (r.1.Some? <==> v.Defined? && IsDefined(columns, p1.x + v.u, p1.y + v.v))
      && (r.1.Some? ==> r.1.value == indexFor(v.m) && r.0.x == p1.x && r.0.y == p1.y
                        && r.0.xt == p1.x + v.u && r.0.yt == p1.y + v.v)
      && (r.1.None? && v.Defined? ==> r.0.x == p1.x + v.u && r.0.y == p1.y + v.v
                                      && r.0.xt == p1.xt && r.0.yt == p1.yt)
      && (!v.Defined? ==> r.0.x == p1.x && r.0.y == p1.y)
  {
    AdvancedTrail(columns, Prepared(columns, p, draw), indexFor);
  }

  /** TrailRule for the particle after the over-age reseed. */
  lemma AdvancedTrail(columns: Columns, p1: Particle, indexFor: real -> nat)
    ensures var v := Lookup(columns, p1.x, p1.y);
      var r := Advanced(columns, p1, indexFor);
      && (r.1.Some? <==> v.Defined? && IsDefined(columns, p1.x + v.u, p1.y + v.v))
      && (r.1.Some? ==> r.1.value == indexFor(v.m) && r.0.x == p1.x && r.0.y == p1.y
                        && r.0.xt == p1.x + v.u && r.0.yt == p1.y + v.v)
      && (r.1.None? && v.Defined? ==> r.0.x == p1.x + v.u && r.0.y == p1.y + v.v
                                      && r.0.xt == p1.xt && r.0.yt == p1.yt)
      && (!v.Defined? ==> r.0.x == p1.x && r.0.y == p1.y)
  {
  }

  /** Ages stay within [0, MAX_PARTICLE_AGE + 1] frame after frame. */
  lemma AgesStayInRange(columns: Columns, ps: seq<Particle>, draws: nat -> nat -> Point, indexFor: real -> nat)
    requires forall i :: 0 <= i < |ps| ==> 0 <= ps[i].age <= MaxAge + 1
    ensures var r := EvolvedAll(columns, ps, draws, indexFor);
      forall i :: 0 <= i < |r| ==> 1 <= r[i].age <= MaxAge + 1
  {
    forall i | 0 <= i < |ps| ensures 1 <= EvolvedAll(columns, ps, draws, indexFor)[i].age <= MaxAge + 1 {
      AgeRule(columns, ps[i], draws(i), indexFor);
    }
  }

  // ---------------------------------------------------------------------------
  // Buckets

  /** A particle is in bucket b exactly when it joined b; a bucket lists each particle once, in order. */
  lemma {:induction false} BucketMembers(outs: seq<Option<nat>>, b: nat)
    ensures forall i :: i in Bucket(outs, b) <==> 0 <= i < |outs| && outs[i] == Some(b)
    ensures forall j, k :: 0 <= j < k < |Bucket(outs, b)| ==> Bucket(outs, b)[j] < Bucket(outs, b)[k]
    decreases |outs|
  {
    if |outs| > 0 {
      var prefix := outs[..|outs| - 1];
      BucketMembers(prefix, b);
      var before := Bucket(prefix, b);
      forall i | i in before ensures i < |outs| - 1 {
      }
      forall j | 0 <= j < |before| ensures before[j] < |outs| - 1 {
        assert before[j] in before;
      }
    }
  }

  /** No particle is in two buckets. */
  lemma BucketsDisjoint(outs: seq<Option<nat>>, b: nat, b': nat)
    requires b != b'
    ensures forall i :: i in Bucket(outs, b) ==> i !in Bucket(outs, b')
  {
    BucketMembers(outs, b);
    BucketMembers(outs, b');
  }

  lemma {:induction false} SizeOfBucketsLast(outs: seq<Option<nat>>, o: Option<nat>, n: nat)
    ensures SizeOfBuckets(outs + [o], n) == SizeOfBuckets(outs, n) + (if o.Some? && o.value < n then 1 else 0)
  {
    assert (outs + [o])[..|outs|] == outs;
    if n > 0 {
      SizeOfBucketsLast(outs, o, n - 1);
    }
  }

  /**
   * When every bucket index lies below the number of buckets, the bucket sizes
   * add up to the number of particles drawn, which is at most the particle count.
   */
  lemma {:induction false} BucketSizes(outs: seq<Option<nat>>, n: nat)
    requires forall i :: 0 <= i < |outs| && outs[i].Some? ==> outs[i].value < n
    ensures SizeOfBuckets(outs, n) == Drawn(outs) <= |outs|
    decreases |outs|
  {
    if |outs| == 0 {
      if n > 0 {
        EmptyBuckets(n);
      }
    } else {
      var prefix := outs[..|outs| - 1];
      BucketSizes(prefix, n);
      SizeOfBucketsLast(prefix, outs[|outs| - 1], n);
      assert prefix + [outs[|outs| - 1]] == outs;
    }
  }

  lemma {:induction false} EmptyBuckets(n: nat)
    ensures SizeOfBuckets([], n) == 0
  {
    if n > 0 {
      EmptyBuckets(n - 1);
    }
  }

  // ---------------------------------------------------------------------------
  // The animator

  /** Where draw leaves a particle whose trail it has stroked. */
  function TrailEnd(p: Particle): Particle
  {
    p.(x := p.xt, y := p.yt)
  }

  /**
   * The particles after one frame, evolve then draw: each drawn particle ends at
   * the end of its new trail, the others where evolve left them.
   */
  function AfterFrame(columns: Columns, ps: seq<Particle>, draws: nat -> nat -> Point, indexFor: real -> nat): (r: seq<Particle>)
    ensures |r| == |ps|
  {
    seq(|ps|, j requires 0 <= j < |ps| =>
      var e := Evolved(columns, ps[j], draws(j), indexFor);
      if e.1.Some? then TrailEnd(e.0) else e.0)
  }

  /**
   * When every bucket holds exactly the indices evolve routed to it, the buckets
   * hold valid particle indices, and particle j is in some bucket exactly when
   * evolve gave it a colour.
   */
  lemma BucketedExactly(outs: seq<Option<nat>>, bs: seq<seq<nat>>)
    requires forall i :: 0 <= i < |outs| && outs[i].Some? ==> outs[i].value < |bs|
    requires forall k :: 0 <= k < |bs| ==> bs[k] == Bucket(outs, k)
    ensures forall k, j :: 0 <= k < |bs| && 0 <= j < |bs[k]| ==> bs[k][j] < |outs|
    ensures forall j :: 0 <= j < |outs| ==>
      ((exists k :: 0 <= k < |bs| && j in bs[k]) <==> outs[j].Some?)
  {
    forall k, j | 0 <= k < |bs| && 0 <= j < |bs[k]| ensures bs[k][j] < |outs| {
      BucketMembers(outs, k);
      assert bs[k][j] in Bucket(outs, k);
    }
    forall j | 0 <= j < |outs|
      ensures (exists k :: 0 <= k < |bs| && j in bs[k]) <==> outs[j].Some?
    {
      if outs[j].Some? {
        BucketMembers(outs, outs[j].value);
        assert j in bs[outs[j].value];
      } else {
        forall k | 0 <= k < |bs| ensures j !in bs[k] {
          BucketMembers(outs, k);
        }
      }
    }
  }

  /** Particle j appears in one of buckets 0 .. k - 1, or among the first m entries of bucket k. */
  ghost predicate Covered(bs: seq<seq<nat>>, k: int, m: int, j: nat)
    requires 0 <= k <= |bs| && (k < |bs| ==> 0 <= m <= |bs[k]|)
  {
    (exists b :: 0 <= b < k && j in bs[b]) || (k < |bs| && j in bs[k][..m])
  }

  /**
   * The state animate keeps between frames: the field, the particles, and one
   * bucket of particle indices per colour of colorStyles.
   */
  class Animator {
    const field: Field
    const particles: array<Particle>
    const buckets: array<seq<nat>>
    /** colorStyles.indexFor. */
    const indexFor: real -> nat

    ghost predicate Valid()
      reads this
    {
      forall m: real :: indexFor(m) < buckets.Length
    }

    /**
     * animate's set-up: bucketCount empty buckets, and count particles each
     * placed by randomize, with age ages(i) (a _.random(0, MAX_PARTICLE_AGE)
     * draw) and random source draws(i).
     */
    constructor (field: Field, count: nat, bucketCount: nat, indexFor: real -> nat,
                 ages: nat -> int, draws: nat -> nat -> Point)
      requires forall m: real :: indexFor(m) < bucketCount
      ensures Valid() && fresh(particles) && fresh(buckets)
      ensures this.field == field && this.indexFor == indexFor
      ensures particles.Length == count && buckets.Length == bucketCount
      ensures forall k :: 0 <= k < bucketCount ==> buckets[k] == []
      ensures forall i :: 0 <= i < count ==> particles[i] == Spawned(field.columns, draws(i), ages(i))
    {
      var ps := SpawnAll(field, count, ages, draws);
      this.field := field;
      this.particles := ps;
      this.buckets := new seq<nat>[bucketCount](_ => []);
      this.indexFor := indexFor;
    }

    /** The particle loop of animate's set-up: particle i placed by randomize with age ages(i). */
    static method SpawnAll(field: Field, count: nat, ages: nat -> int, draws: nat -> nat -> Point)
        returns (ps: array<Particle>)
      ensures fresh(ps) && ps.Length == count
      ensures forall i :: 0 <= i < count ==> ps[i] == Spawned(field.columns, draws(i), ages(i))
    {
      ps := new Particle[count];
      var i := 0;
      while i < count
        invariant 0 <= i <= count
        invariant forall j :: 0 <= j < i ==> ps[j] == Spawned(field.columns, draws(j), ages(j))
        modifies ps
      {
        var q, _ := field.Randomize(draws(i));
        ps[i] := Particle(q.x as real, q.y as real, q.x as real, q.y as real, ages(i));
        assert ps[i] == Spawned(field.columns, draws(i), ages(i));
        i := i + 1;
      }
    }

    /**
     * evolve: empty every bucket, then evolve each particle in turn, pushing the
     * index of each one whose trail is drawn onto its bucket.
     */
    method Evolve(draws: nat -> nat -> Point)
      requires Valid()
      modifies particles, buckets
      ensures particles[..] == EvolvedAll(field.columns, old(particles[..]), draws, indexFor)
      ensures forall k :: 0 <= k < buckets.Length ==>
        buckets[k] == Bucket(Outcomes(field.columns, old(particles[..]), draws, indexFor), k)
    {
      ghost var ps := particles[..];
      ghost var outs := Outcomes(field.columns, ps, draws, indexFor);
      ghost var after := EvolvedAll(field.columns, ps, draws, indexFor);
      for k := 0 to buckets.Length
        invariant forall j :: 0 <= j < k ==> buckets[j] == []
        modifies buckets
      {
        buckets[k] := [];
      }
      for i := 0 to particles.Length
        invariant forall j :: 0 <= j < i ==> particles[j] == after[j]
        invariant forall j :: i <= j < particles.Length ==> particles[j] == ps[j]
        invariant forall k :: 0 <= k < buckets.Length ==> buckets[k] == Bucket(outs[..i], k)
      {
        var p, bucket := EvolveOne(particles[i], draws(i));
        assert p == after[i] && bucket == outs[i];
        forall k | 0 <= k < buckets.Length
          ensures Bucket(outs[..i + 1], k) == Bucket(outs[..i], k) + (if bucket == Some(k) then [i] else [])
        {
          BucketPush(outs, i, k);
        }
        Place(i, p, bucket);
      }
      assert outs[..particles.Length] == outs;
      assert particles[..] == after;
    }

    /**
     * One animation frame: if cancellation was requested, release the field and
     * stop; otherwise evolve, then draw.
     */
    method Frame(cancelRequested: bool, draws: nat -> nat -> Point)
      requires Valid()
      modifies field, particles, buckets
      ensures cancelRequested ==> field.columns == map[] && particles[..] == old(particles[..])
      ensures !cancelRequested ==> field.columns == old(field.columns)
      ensures !cancelRequested ==> particles[..] == AfterFrame(field.columns, old(particles[..]), draws, indexFor)
      ensures cancelRequested ==> buckets[..] == old(buckets[..])
      ensures !cancelRequested ==> forall k :: 0 <= k < buckets.Length ==>
        buckets[k] == Bucket(Outcomes(field.columns, old(particles[..]), draws, indexFor), k)
    {
      if cancelRequested {
        field.Release();
        return;
      }
      ghost var ps := particles[..];
      ghost var outs := Outcomes(field.columns, ps, draws, indexFor);
      assert forall i :: 0 <= i < |outs| ==> outs[i] == Evolved(field.columns, ps[i], draws(i), indexFor).1;
      Evolve(draws);
      BucketedExactly(outs, buckets[..]);
      Draw();
      assert particles[..] == AfterFrame(field.columns, ps, draws, indexFor);
    }

    /** Store particle i's new state and push it onto its bucket. */
    method Place(i: nat, p: Particle, bucket: Option<nat>)
      requires i < particles.Length && (bucket.Some? ==> bucket.value < buckets.Length)
      modifies particles, buckets
      ensures forall j :: 0 <= j < particles.Length ==> particles[j] == if j == i then p else old(particles[j])
      ensures forall k :: 0 <= k < buckets.Length ==>
        buckets[k] == old(buckets[k]) + (if bucket == Some(k) then [i] else [])
    {
      particles[i] := p;
      if bucket.Some? {
        buckets[bucket.value] := buckets[bucket.value] + [i];
      }
    }

    /** The body of evolve's forEach, for one particle. */
    method EvolveOne(particle: Particle, draw: nat -> Point) returns (p: Particle, bucket: Option<nat>)
      requires Valid()
      ensures (p, bucket) == Evolved(field.columns, particle, draw, indexFor)
      ensures bucket.Some? ==> bucket.value < buckets.Length
    {
      p := particle;
      if p.age > MaxAge {
        var q, _ := field.Randomize(draw);
        p := p.(x := q.x as real, y := q.y as real, age := 0);
      }
      assert p == Prepared(field.columns, particle, draw);
      p, bucket := Advance(p);
    }

    /** evolve's step after the age check: look up the vector, then move or draw the particle. */
    method Advance(particle: Particle) returns (p: Particle, bucket: Option<nat>)
      requires Valid()
      ensures (p, bucket) == Advanced(field.columns, particle, indexFor)
      ensures bucket.Some? ==> bucket.value < buckets.Length
    {
      p := particle;
      var v := field.Sample(p.x, p.y);
      bucket := None;
      if !v.Defined? {
        p := p.(age := MaxAge);
      } else {
        var xt := p.x + v.u;
        var yt := p.y + v.v;
        if field.Sample(xt, yt).Defined? {
          p := p.(xt := xt, yt := yt);
          bucket := Some(indexFor(v.m));
        } else {
          p := p.(x := xt, y := yt);
        }
      }
      p := p.(age := p.age + 1);
    }

    /**
     * draw's state change: every particle in some bucket moves to the end of
     * the trail just stroked. Bucket entries must be particle indices.
     */
    method Draw()
      requires forall k, j :: 0 <= k < buckets.Length && 0 <= j < |buckets[k]| ==> buckets[k][j] < particles.Length
      modifies particles
      ensures forall j :: 0 <= j < particles.Length ==>
        particles[j] == if exists k :: 0 <= k < buckets.Length && j in buckets[k]
                        then TrailEnd(old(particles[j])) else old(particles[j])
    {
      ghost var ps := particles[..];
      for k := 0 to buckets.Length
        invariant forall j :: 0 <= j < particles.Length ==>
          particles[j] == if Covered(buckets[..], k, 0, j) then TrailEnd(ps[j]) else ps[j]
      {
        var bucket := buckets[k];
        for m := 0 to |bucket|
          invariant forall j :: 0 <= j < particles.Length ==>
            particles[j] == if Covered(buckets[..], k, m, j) then TrailEnd(ps[j]) else ps[j]
        {
          assert bucket[..m + 1] == bucket[..m] + [bucket[m]];
          var j := bucket[m];
          particles[j] := TrailEnd(particles[j]);
        }
        assert bucket[..|bucket|] == bucket;
        forall j | 0 <= j < particles.Length
          ensures Covered(buckets[..], k, |bucket|, j) == Covered(buckets[..], k + 1, 0, j)
        {
        }
      }
    }
  }
}
