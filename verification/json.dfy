/** The JSON document model the simulator manipulates through Newtonsoft's
    JToken API, as a tree: an object is an ordered list of members, looked
    up by the first member with the key, and `obj[key] = v` replaces that
    member in place or appends a new one at the end. */
module JsonTree {
  import opened Outcomes
  import opened Text

  datatype Json =
    | JNull
    | JBool(b: bool)
    | JInt(i: int)                // an integer number token
    | JFloat(literal: string)     // a non-integer number token, kept as written
    | JStr(s: string)
    | JArr(items: seq<Json>)
    | JObj(members: seq<Member>)

  datatype Member = Member(key: string, value: Json)

  /** The property names of an object, in order. */
  function Keys(ms: seq<Member>): (ks: seq<string>)
    ensures |ks| == |ms|
    ensures forall i :: 0 <= i < |ms| ==> ks[i] == ms[i].key
  {
    seq(|ms|, i requires 0 <= i < |ms| => ms[i].key)
  }

  /** The position of the first member named `k` at or after `from`. */
  function FindKeyFrom(ms: seq<Member>, k: string, from: nat): (r: Option<nat>)
    requires from <= |ms|
    decreases |ms| - from
    ensures r.Some? ==> from <= r.value < |ms| && ms[r.value].key == k
    ensures r.Some? ==> forall j :: from <= j < r.value ==> ms[j].key != k
    ensures r.None? ==> forall j :: from <= j < |ms| ==> ms[j].key != k
  {
    if from == |ms| then None
    else if ms[from].key == k then Some(from)
    else FindKeyFrom(ms, k, from + 1)
  }

  /** The position of the first member named `k`. */
  function FindKey(ms: seq<Member>, k: string): (r: Option<nat>)
    ensures r.Some? ==> r.value < |ms| && ms[r.value].key == k
    ensures r.Some? ==> forall j :: 0 <= j < r.value ==> ms[j].key != k
    ensures r.None? <==> k !in Keys(ms)
  {
    FindKeyFrom(ms, k, 0)
  }

  /** The first member named `k` is found, wherever it is. */
  lemma FindKeyAt(ms: seq<Member>, k: string, i: nat)
    requires i < |ms| && ms[i].key == k
    requires forall j :: 0 <= j < i ==> ms[j].key != k
    ensures FindKey(ms, k) == Some(i)
  {
    assert Keys(ms)[i] == k;
  }

  predicate HasKey(ms: seq<Member>, k: string) {
    k in Keys(ms)
  }

  /** JObject.TryGetValue / obj[key]: the value of the first member named `k`. */
  function Get(ms: seq<Member>, k: string): (r: Option<Json>)
    ensures r.Some? <==> k in Keys(ms)
  {
    match FindKey(ms, k)
    case Some(i) => Some(ms[i].value)
    case None => None
  }

  /** JObject's indexer setter `obj[k] = v`: the first member named `k` gets
      the new value in place; without one, a member is appended. */
  function Set(ms: seq<Member>, k: string, v: Json): (r: seq<Member>)
    ensures Get(r, k) == Some(v)
    ensures k in Keys(ms) ==> Keys(r) == Keys(ms)
    ensures k !in Keys(ms) ==> Keys(r) == Keys(ms) + [k]
  {
    match FindKey(ms, k)
    case Some(i) =>
      FindKeyAt(ms[i := Member(k, v)], k, i);
      ms[i := Member(k, v)]
    case None =>
      FindKeyAt(ms + [Member(k, v)], k, |ms|);
      ms + [Member(k, v)]
  }

  /** Setting one key leaves every other key's value as it was. */
  lemma GetSetOther(ms: seq<Member>, k: string, v: Json, other: string)
    requires other != k
    ensures Get(Set(ms, k, v), other) == Get(ms, other)
  {
    var r := Set(ms, k, v);
    match FindKey(ms, other)
    case Some(i) =>
      FindKeyAt(r, other, i);
    case None =>
      assert other !in Keys(r);
  }

  /** The same, for every other key at once. */
  lemma SetFrame(ms: seq<Member>, k: string, v: Json)
    ensures forall other :: other != k ==> Get(Set(ms, k, v), other) == Get(ms, other)
  {
    forall other | other != k ensures Get(Set(ms, k, v), other) == Get(ms, other) {
      GetSetOther(ms, k, v, other);
    }
  }

  /** Setting a key twice keeps only the last value. */
  lemma SetSet(ms: seq<Member>, k: string, v: Json, w: Json)
    ensures Set(Set(ms, k, v), k, w) == Set(ms, k, w)
  {
    match FindKey(ms, k)
    case Some(i) =>
      FindKeyAt(Set(ms, k, v), k, i);
    case None =>
      FindKeyAt(Set(ms, k, v), k, |ms|);
  }

  /** Writing back the value a key already has changes nothing. */
  lemma SetExisting(ms: seq<Member>, k: string)
    requires Get(ms, k).Some?
    ensures Set(ms, k, Get(ms, k).value) == ms
  {
  }

  /** Setting two different keys that both exist may be done in either order. */
  lemma SetCommutes(ms: seq<Member>, k1: string, v1: Json, k2: string, v2: Json)
    requires k1 != k2 && k1 in Keys(ms) && k2 in Keys(ms)
    ensures Set(Set(ms, k1, v1), k2, v2) == Set(Set(ms, k2, v2), k1, v1)
  {
    var i1 := FindKey(ms, k1).value;
    var i2 := FindKey(ms, k2).value;
    FindKeyAt(Set(ms, k1, v1), k2, i2);
    FindKeyAt(Set(ms, k2, v2), k1, i1);
  }

  // ---------------------------------------------------------------------
  // Value<T>() on a token
  // ---------------------------------------------------------------------

  /** `token.Value<string>()` on a present token: objects and arrays cannot
      be converted; every plain value, null included, converts. */
  function ScalarValue(j: Json): (r: Result<Json>)
    ensures r.Success? <==> !j.JObj? && !j.JArr?
    ensures r.Success? ==> r.value == j
    ensures r.Failure? ==> r.error == InvalidCast
  {
    if j.JObj? || j.JArr? then Failure(InvalidCast) else Success(j)
  }

  /** `obj[key].Value<string>()`: a missing key hands a C# null to the
      extension method, which throws ArgumentNullException("value"). */
  function ValueOf(ms: seq<Member>, key: string): (r: Result<Json>)
    ensures !HasKey(ms, key) ==> r == Failure(ArgumentNull("value"))
    ensures HasKey(ms, key) ==> r == ScalarValue(Get(ms, key).value)
  {
    match Get(ms, key)
    case None => Failure(ArgumentNull("value"))
    case Some(v) => ScalarValue(v)
  }

  /** What `Value<int>()` yields: an exact int, or, for a non-integer
      number, what Convert.ToInt32 rounds the double to (floating point is
      not modelled, so the literal is kept). */
  datatype IntValue = Exactly(n: Int32) | RoundedFrom(literal: string)

  /** `token.Value<int>()` on a present token, which goes through
      Convert.ChangeType: a container or a null value cannot be cast; a
      long outside the int range overflows, and a larger integer (a
      BigInteger) is not convertible at all; a string is read by
      Int32.Parse; a boolean gives 1 or 0. */
  function Int32Value(j: Json): (r: Result<IntValue>)
    ensures r.Success? && r.value.Exactly? ==>
              (j.JInt? && j.i == r.value.n) || (j.JBool? && r.value.n == (if j.b then 1 else 0)) ||
              (j.JStr? && IntegerSyntax(j.s) == Some(r.value.n as int))
    ensures r.Success? && r.value.RoundedFrom? ==> j == JFloat(r.value.literal)
    ensures r == Failure(InvalidCast) <==>
              j.JObj? || j.JArr? || j.JNull? || (j.JInt? && !(Int64Min <= j.i <= Int64Max))
    ensures r == Failure(Overflow) <==>
              (j.JInt? && Int64Min <= j.i <= Int64Max && !(Int32Min <= j.i <= Int32Max)) ||
              (j.JStr? && IntegerSyntax(j.s).Some? && !(Int32Min <= IntegerSyntax(j.s).value <= Int32Max))
    ensures r == Failure(Format) <==> j.JStr? && IntegerSyntax(j.s).None?
  {
    match j
    case JNull => Failure(InvalidCast)
    case JBool(b) => Success(Exactly(if b then 1 else 0))
    case JInt(i) =>
      if Int32Min <= i <= Int32Max then Success(Exactly(i))
      else if Int64Min <= i <= Int64Max then Failure(Overflow)
      else Failure(InvalidCast)
    case JFloat(literal) => Success(RoundedFrom(literal))
    case JStr(text) =>
      (match IntegerSyntax(text)
       case None => Failure(Format)
       case Some(n) => if Int32Min <= n <= Int32Max then Success(Exactly(n)) else Failure(Overflow))
    case JArr(_) => Failure(InvalidCast)
    case JObj(_) => Failure(InvalidCast)
  }

  /** `obj[key].Value<int>()`. */
  function IntValueOf(ms: seq<Member>, key: string): (r: Result<IntValue>)
    ensures !HasKey(ms, key) ==> r == Failure(ArgumentNull("value"))
    ensures HasKey(ms, key) ==> r == Int32Value(Get(ms, key).value)
  {
    match Get(ms, key)
    case None => Failure(ArgumentNull("value"))
    case Some(v) => Int32Value(v)
  }

  /** Value<int>() reads back every int it could have been given, as a
      number or as its decimal text. */
  lemma Int32ValueRoundTrip(n: Int32)
    ensures Int32Value(JInt(n)) == Success(Exactly(n))
    ensures Int32Value(JStr(IntToString(n))) == Success(Exactly(n))
  {
    TryParseInt32RoundTrip(n);
  }

  // ---------------------------------------------------------------------
  // A foreach over array elements whose body may throw
  // ---------------------------------------------------------------------

  /** Running `step` on each element from position `k` on, each element
      replaced by its result in place; the first element whose step throws
      ends the loop with that exception. */
  function EachFrom(items: seq<Json>, k: nat, step: (Json, nat) -> Result<Json>): Result<seq<Json>>
    decreases |items|
  {
    if |items| == 0 then Success([])
    else
      match step(items[0], k)
      case Failure(e) => Failure(e)
      case Success(first) =>
        match EachFrom(items[1..], k + 1, step)
        case Failure(e) => Failure(e)
        case Success(rest) => Success([first] + rest)
  }

  /** `prefix` placed before a successful result; a failure stays as is. */
  function Prepend(prefix: seq<Json>, r: Result<seq<Json>>): (p: Result<seq<Json>>)
    ensures p.Success? <==> r.Success?
    ensures p.Success? ==> p.value == prefix + r.value
    ensures p.Failure? ==> p.error == r.error
  {
    match r
    case Failure(e) => Failure(e)
    case Success(s) => Success(prefix + s)
  }

  lemma PrependNothing(r: Result<seq<Json>>)
    ensures Prepend([], r) == r
  {
    if r.Success? {
      assert [] + r.value == r.value;
    }
  }

  lemma PrependTwice(p: seq<Json>, q: seq<Json>, r: Result<seq<Json>>)
    ensures Prepend(p, Prepend(q, r)) == Prepend(p + q, r)
  {
    if r.Success? {
      assert p + (q + r.value) == (p + q) + r.value;
    }
  }

  /** The loop completes exactly when every element's step succeeds. */
  lemma {:induction false} EachFromSucceeds(items: seq<Json>, k: nat, step: (Json, nat) -> Result<Json>)
    ensures EachFrom(items, k, step).Success? <==>
            forall i :: 0 <= i < |items| ==> step(items[i], k + i).Success?
    decreases |items|
  {
    if |items| > 0 {
      EachFromSucceeds(items[1..], k + 1, step);
      assert forall i :: 0 <= i < |items| - 1 ==> items[1..][i] == items[i + 1] && k + 1 + i == k + (i + 1);
    }
  }

  /** When whether a step succeeds depends on the element alone, the loop
      completes exactly when every element passes that test. */
  lemma EachFromSucceedsWhen(items: seq<Json>, k: nat, step: (Json, nat) -> Result<Json>, ok: Json -> bool)
    requires forall x, j :: step(x, j).Success? == ok(x)
    ensures EachFrom(items, k, step).Success? <==> forall i :: 0 <= i < |items| ==> ok(items[i])
  {
    EachFromSucceeds(items, k, step);
  }

  /** A failing loop fails with the exception of its first failing element. */
  lemma {:induction false} EachFromFailure(items: seq<Json>, k: nat, step: (Json, nat) -> Result<Json>, f: nat)
    requires f < |items| && step(items[f], k + f).Failure?
    requires forall i :: 0 <= i < f ==> step(items[i], k + i).Success?
    ensures EachFrom(items, k, step) == Failure(step(items[f], k + f).error)
    decreases f
  {
    if f > 0 {
      assert step(items[0], k + 0).Success?;
      forall i | 0 <= i < f - 1 ensures step(items[1..][i], (k + 1) + i).Success? {
        assert items[1..][i] == items[i + 1] && (k + 1) + i == k + (i + 1);
      }
      assert items[1..][f - 1] == items[f] && (k + 1) + (f - 1) == k + f;
      EachFromFailure(items[1..], k + 1, step, f - 1);
    }
  }

  /** On success the array keeps its length. */
  lemma {:induction false} EachFromLength(items: seq<Json>, k: nat, step: (Json, nat) -> Result<Json>)
    requires EachFrom(items, k, step).Success?
    ensures |EachFrom(items, k, step).value| == |items|
    decreases |items|
  {
    if |items| > 0 {
      EachFromLength(items[1..], k + 1, step);
    }
  }

  /** On success element i is replaced by its own step's result. */
  lemma {:induction false} EachFromAt(items: seq<Json>, k: nat, step: (Json, nat) -> Result<Json>, i: nat)
    requires EachFrom(items, k, step).Success? && i < |items|
    ensures i < |EachFrom(items, k, step).value|
    ensures step(items[i], k + i) == Success(EachFrom(items, k, step).value[i])
    decreases i
  {
    EachFromLength(items, k, step);
    if i > 0 {
      EachFromAt(items[1..], k + 1, step, i - 1);
      assert items[1..][i - 1] == items[i];
      assert (k + 1) + (i - 1) == k + i;
    }
  }

  /** The same for a loop started at index 0. */
  lemma EachFromAtStart(items: seq<Json>, step: (Json, nat) -> Result<Json>, i: nat)
    requires EachFrom(items, 0, step).Success? && i < |items|
    ensures i < |EachFrom(items, 0, step).value|
    ensures step(items[i], i) == Success(EachFrom(items, 0, step).value[i])
  {
    EachFromAt(items, 0, step, i);
  }

  /** One element of the loop: the step on element i, then the rest. */
  lemma EachFromStep(items: seq<Json>, i: nat, step: (Json, nat) -> Result<Json>)
    requires i < |items|
    ensures EachFrom(items[i..], i, step) ==
            match step(items[i], i)
            case Failure(e) => Failure(e)
            case Success(x) => Prepend([x], EachFrom(items[i + 1..], i + 1, step))
  {
    assert items[i..][0] == items[i];
    assert items[i..][1..] == items[i + 1..];
  }

  // The loops that replace element i of a copy `current` by its step's
  // result keep one invariant: what is left to do, run from i, gives the
  // whole loop's result once the finished prefix is put in front.

  predicate EachFromInvariant(items: seq<Json>, current: seq<Json>, i: nat, step: (Json, nat) -> Result<Json>) {
    i <= |items| == |current| && current[i..] == items[i..] &&
    EachFrom(items, 0, step) == Prepend(current[..i], EachFrom(items[i..], i, step))
  }

  /** Before the first element. */
  lemma EachFromInvariantStart(items: seq<Json>, step: (Json, nat) -> Result<Json>)
    ensures EachFromInvariant(items, items, 0, step)
  {
    assert items[0..] == items;
    PrependNothing(EachFrom(items, 0, step));
  }

  /** A step that succeeds moves the invariant one element on. */
  lemma EachFromInvariantAdvance(items: seq<Json>, current: seq<Json>, i: nat, x: Json,
                                 step: (Json, nat) -> Result<Json>)
    requires EachFromInvariant(items, current, i, step) && i < |items|
    requires step(items[i], i) == Success(x)
    ensures EachFromInvariant(items, current[i := x], i + 1, step)
  {
    EachFromStep(items, i, step);
    PrependTwice(current[..i], [x], EachFrom(items[i + 1..], i + 1, step));
    assert current[i := x][..i + 1] == current[..i] + [x];
    assert current[i := x][i + 1..] == current[i..][1..];
  }

  /** A step that fails ends the loop with its exception. */
  lemma EachFromInvariantStop(items: seq<Json>, current: seq<Json>, i: nat, step: (Json, nat) -> Result<Json>)
    requires EachFromInvariant(items, current, i, step) && i < |items|
    requires step(items[i], i).Failure?
    ensures EachFrom(items, 0, step) == Failure(step(items[i], i).error)
  {
    EachFromStep(items, i, step);
  }

  /** After the last element the copy is the loop's result. */
  lemma EachFromInvariantDone(items: seq<Json>, current: seq<Json>, step: (Json, nat) -> Result<Json>)
    requires EachFromInvariant(items, current, |items|, step)
    ensures EachFrom(items, 0, step) == Success(current)
  {
    assert current[..|items|] == current;
    assert items[|items|..] == [];
    assert current + [] == current;
  }
}
