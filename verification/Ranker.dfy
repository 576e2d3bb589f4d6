/** The score of a video for a user rests on a dot product of coefficients that
    wraps around at 64 bits, summed in whatever order the map is iterated. */
module Ranker {
  import opened Basics

  type Coefficients = map<nat, nat>

  const TWO_64 := 0x1_0000_0000_0000_0000

  type uint64 = x: nat | x < TWO_64

  /** Addition that wraps around. */
  function Add(a: uint64, b: uint64): uint64 {
    if a + b < TWO_64 then a + b else a + b - TWO_64
  }

  function Multiply(a: nat, b: nat): uint64 {
    a * b % TWO_64
  }

  function Term(user: Coefficients, video: Coefficients, feature: nat): uint64 {
    if feature in user && feature in video then Multiply(user[feature], video[feature]) else 0
  }

  /** The sum of some terms over a set of features, taken in some order. */
  ghost function WrappedSum(term: nat -> uint64, features: set<nat>): uint64
    decreases |features|
  {
    if features == {} then 0
    else
      var f :| f in features;
      Add(WrappedSum(term, features - {f}), term(f))
  }

  lemma AddSwap(a: uint64, b: uint64, c: uint64)
    ensures Add(Add(a, b), c) == Add(Add(a, c), b)
  {
  }

  /** Any feature may be taken last: the order does not matter. */
  lemma {:induction false} AnyOrder(term: nat -> uint64, features: set<nat>, f: nat)
    requires f in features
    ensures WrappedSum(term, features) == Add(WrappedSum(term, features - {f}), term(f))
    decreases |features|
  {
    var g :| g in features && WrappedSum(term, features) == Add(WrappedSum(term, features - {g}), term(g));
    if f != g {
      var rest := features - {f} - {g};
      assert features - {g} - {f} == rest;
      AnyOrder(term, features - {g}, f);
      AnyOrder(term, features - {f}, g);
      AddSwap(WrappedSum(term, rest), term(f), term(g));
    }
  }

  ghost function Terms(user: Coefficients, video: Coefficients): nat -> uint64 {
    (f: nat) => Term(user, video, f)
  }

  ghost function Dot(user: Coefficients, video: Coefficients): uint64 {
    WrappedSum(Terms(user, video), user.Keys)
  }

  /** The loop over the user's coefficients, in any order. */
  method DotProduct(user: Coefficients, video: Coefficients) returns (dot: uint64)
    ensures dot == Dot(user, video)
  {
    ghost var term := Terms(user, video);
    dot := 0;
    var left := user.Keys;
    while left != {}
      invariant left <= user.Keys && dot == WrappedSum(term, user.Keys - left)
    {
      SomeFeature(left);
      var f :| f in left;
      assert user.Keys - (left - {f}) - {f} == user.Keys - left;
      AnyOrder(term, user.Keys - (left - {f}), f);
      if f in video {
        dot := Add(dot, Multiply(user[f], video[f]));
      }
      left := left - {f};
    }
    assert user.Keys - left == user.Keys;
  }

  /** The plain sum of the products, without wrapping around. */
  function SumOfProducts(user: Coefficients, video: Coefficients, order: seq<nat>): nat
    requires forall f: nat | f in order :: f in user && f in video
  {
    if order == [] then 0
    else
      var f := order[|order| - 1];
      SumOfProducts(user, video, order[..|order| - 1]) + user[f] * video[f]
  }

  lemma WrappingIsModulo(x: nat, y: nat)
    ensures Add(x % TWO_64, y % TWO_64) == (x + y) % TWO_64
  {
  }

  lemma AddingProduct(sum: nat, a: nat, b: nat)
    ensures Add(sum % TWO_64, Multiply(a, b)) == (sum + a * b) % TWO_64
  {
    WrappingIsModulo(sum, a * b);
  }

  lemma {:induction false} ZeroTerms(term: nat -> uint64, features: set<nat>)
    requires forall f: nat | f in features :: term(f) == 0
    ensures WrappedSum(term, features) == 0
    decreases |features|
  {
    SomeFeature(features);
    if f: nat :| f in features {
      AnyOrder(term, features, f);
      ZeroTerms(term, features - {f});
    } else {
      assert features == {};
    }
  }

  lemma {:induction false} SumInOrder(user: Coefficients, video: Coefficients, order: seq<nat>, features: set<nat>)
    requires Distinct(order) && Lists(order, features * video.Keys) && features <= user.Keys
    ensures WrappedSum(Terms(user, video), features) == SumOfProducts(user, video, order) % TWO_64
    decreases |order|
  {
    if order == [] {
      forall f: nat | f in features ensures Terms(user, video)(f) == 0 {
        assert f !in order && f !in features * video.Keys;
      }
      ZeroTerms(Terms(user, video), features);
    } else {
      var last := |order| - 1;
      var f := order[last];
      assert f in order && f in features * video.Keys;
      OneFewer(order, features * video.Keys);
      assert features * video.Keys - {f} == (features - {f}) * video.Keys;
      SumInOrder(user, video, order[..last], features - {f});
      AnyOrder(Terms(user, video), features, f);
      AddingProduct(SumOfProducts(user, video, order[..last]), user[f], video[f]);
    }
  }

  ghost predicate Lists(order: seq<nat>, features: set<nat>) {
    forall f: nat :: f in order <==> f in features
  }

  lemma OneFewer(order: seq<nat>, features: set<nat>)
    requires Distinct(order) && Lists(order, features) && order != []
    ensures var last := |order| - 1; Distinct(order[..last]) && Lists(order[..last], features - {order[last]})
  {
    var last := |order| - 1;
    assert order == order[..last] + [order[last]];
  }

  /** The dot product is the sum of the products over the features both have, listed
      once each in any order, modulo 2^64. */
  lemma DotIsSumOfProducts(user: Coefficients, video: Coefficients, order: seq<nat>)
    requires Distinct(order) && forall f: nat :: f in order <==> f in user && f in video
    ensures Dot(user, video) == SumOfProducts(user, video, order) % TWO_64
  {
    SumInOrder(user, video, order, user.Keys);
  }

  lemma SomeFeature(features: set<nat>)
    ensures features == {} || exists f: nat :: f in features
  {
    if forall f: nat :: f !in features {
      assert features == {};
    }
  }
}
