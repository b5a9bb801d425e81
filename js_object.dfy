/** The own properties of a plain JavaScript object created by the literal `{}`, with string
    keys and string values: what `obj[k] = v` does to it and the order in which `Object.keys`
    lists its keys (ECMAScript, section 10.1.11.1 OrdinaryOwnPropertyKeys). */
module JsObjects {
  import opened Seqs

  /** The one key that assignment does not turn into an own property of a plain object: it names
      the accessor inherited from `Object.prototype`, whose setter ignores a string value. */
  const ProtoKey: string := "__proto__"

  /** The largest array index, 2^32 - 2. */
  const MaxArrayIndex: nat := 0xFFFF_FFFE

  /** `order` lists every own key once, in the order the keys were created. */
  datatype PlainObject = PlainObject(order: seq<string>, props: map<string, string>) {
    predicate Valid() {
      && Distinct(order)
      && (forall k | k in order :: k in props)
      && (forall k | k in props :: k in order)
      && |props| == |order|
      && ProtoKey !in props
    }
  }

  /** The object literal `{}`. */
  function Empty(): (o: PlainObject)
    ensures o.Valid() && o.props == map[]
  {
    PlainObject([], map[])
  }

  /** `o[k] = v`: a new key is created at the end of the creation order, an existing key keeps its
      place and takes the new value, and `__proto__` leaves the object as it was. */
  function Put(o: PlainObject, k: string, v: string): (r: PlainObject)
    requires o.Valid()
    ensures r.Valid()
    ensures k != ProtoKey ==> k in r.props && r.props[k] == v
    ensures k == ProtoKey ==> r == o
    ensures forall k' | k' != k :: k' in r.props <==> k' in o.props
    ensures forall k' | k' in o.props && k' != k :: r.props[k'] == o.props[k']
    ensures r.order == if k == ProtoKey || k in o.props then o.order else o.order + [k]
  {
    if k == ProtoKey then o
    else if k in o.props then o.(props := o.props[k := v])
    else PlainObject(o.order + [k], o.props[k := v])
  }

  /** Assigning to `k` creates an own property of a plain object. */
  predicate CreatesOwnKey(k: string) {
    k != ProtoKey
  }

  /** Two assignments to one key: the second wins and the key keeps the place of the first. */
  lemma PutOverwrites(o: PlainObject, k: string, v1: string, v2: string)
    requires o.Valid()
    ensures Put(Put(o, k, v1), k, v2) == Put(o, k, v2)
  {
    if k != ProtoKey {
      assert o.props[k := v1][k := v2] == o.props[k := v2];
    }
  }

  predicate IsDigit(c: char) {
    '0' <= c <= '9'
  }

  predicate AllDigits(s: string) {
    forall i | 0 <= i < |s| :: IsDigit(s[i])
  }

  function Pow10(n: nat): (p: nat)
    ensures p >= 1
  {
    if n == 0 then 1 else 10 * Pow10(n - 1)
  }

  /** The number written by a string of decimal digits, most significant first. */
  function DigitsValue(s: string): (v: nat)
    requires AllDigits(s)
    ensures v < Pow10(|s|)
  {
    if s == [] then 0
    else
      var d := s[0] as int - '0' as int;
      var rest := DigitsValue(s[1..]);
      DigitBound(d, rest, Pow10(|s| - 1));
      d * Pow10(|s| - 1) + rest
  }

  /** One more digit in front stays below the next power of ten. */
  lemma DigitBound(d: int, rest: nat, p: nat)
    requires 0 <= d <= 9 && rest < p
    ensures 0 <= d * p + rest < 10 * p
  {
    assert d * p <= 9 * p;
  }

  /** An array index: the canonical decimal form (no sign, no leading zero) of an integer
      from 0 to 2^32 - 2. */
  predicate IsArrayIndex(s: string) {
    && |s| > 0
    && AllDigits(s)
    && (s[0] == '0' ==> |s| == 1)
    && DigitsValue(s) <= MaxArrayIndex
  }

  function IndexValue(s: string): nat {
    if AllDigits(s) then DigitsValue(s) else 0
  }

  predicate IsNotArrayIndex(s: string) {
    !IsArrayIndex(s)
  }

  lemma {:induction false} Pow10Monotone(m: nat, n: nat)
    requires m <= n
    ensures Pow10(m) <= Pow10(n)
  {
    if m < n {
      Pow10Monotone(m, n - 1);
    }
  }

  /** Writing a number as `d * p + v` with `0 <= v < p` fixes `d` and `v`. */
  lemma PositionalUnique(ds: nat, dt: nat, vs: nat, vt: nat, p: nat)
    requires vs < p && vt < p
    requires ds * p + vs == dt * p + vt
    ensures ds == dt && vs == vt
  {
    if ds < dt {
      assert (ds + 1) * p <= dt * p by { MulMonotone(ds + 1, dt, p); }
      assert false;
    } else if dt < ds {
      assert (dt + 1) * p <= ds * p by { MulMonotone(dt + 1, ds, p); }
      assert false;
    }
  }

  lemma MulMonotone(a: nat, b: nat, p: nat)
    requires a <= b
    ensures a * p <= b * p
  {
  }

  /** Digit strings of one length that write the same number are the same string. */
  lemma {:induction false} SameLengthDigitsInjective(s: string, t: string)
    requires AllDigits(s) && AllDigits(t) && |s| == |t|
    requires DigitsValue(s) == DigitsValue(t)
    ensures s == t
  {
    if s != [] {
      PositionalUnique(s[0] as int - '0' as int, t[0] as int - '0' as int,
                       DigitsValue(s[1..]), DigitsValue(t[1..]), Pow10(|s| - 1));
      SameLengthDigitsInjective(s[1..], t[1..]);
      assert s == [s[0]] + s[1..] && t == [t[0]] + t[1..];
    }
  }

  /** A digit string with a non-zero leading digit is at least the matching power of ten. */
  lemma LeadingDigitBound(s: string)
    requires AllDigits(s) && |s| > 0 && s[0] != '0'
    ensures DigitsValue(s) >= Pow10(|s| - 1)
  {
    var d := s[0] as int - '0' as int;
    assert d >= 1;
    assert d * Pow10(|s| - 1) >= Pow10(|s| - 1);
  }

  /** Distinct array indices denote distinct numbers, so their numeric order is strict. */
  lemma ArrayIndexInjective(s: string, t: string)
    requires IsArrayIndex(s) && IsArrayIndex(t) && s != t
    ensures DigitsValue(s) != DigitsValue(t)
  {
    if DigitsValue(s) == DigitsValue(t) {
      if |s| < |t| {
        LeadingDigitBound(t);
        Pow10Monotone(|s|, |t| - 1);
        assert false;
      } else if |t| < |s| {
        LeadingDigitBound(s);
        Pow10Monotone(|t|, |s| - 1);
        assert false;
      }
      SameLengthDigitsInjective(s, t);
      assert false;
    }
  }

  predicate AllIndices(s: seq<string>) {
    forall i | 0 <= i < |s| :: IsArrayIndex(s[i])
  }

  ghost predicate Ascending(s: seq<string>) {
    forall i, j | 0 <= i < j < |s| :: IndexValue(s[i]) <= IndexValue(s[j])
  }

  /** Places an array index into an ascending sequence of array indices. */
  function InsertIndex(k: string, s: seq<string>): (r: seq<string>)
    requires IsArrayIndex(k) && AllIndices(s) && Ascending(s)
    ensures AllIndices(r) && Ascending(r)
    ensures multiset(r) == multiset(s) + multiset{k}
  {
    if s == [] || IndexValue(k) <= IndexValue(s[0]) then
      InsertFront(k, s);
      [k] + s
    else
      var tail := InsertIndex(k, s[1..]);
      InsertBehind(k, s, tail);
      [s[0]] + tail
  }

  lemma InsertFront(k: string, s: seq<string>)
    requires IsArrayIndex(k) && AllIndices(s) && Ascending(s)
    requires s == [] || IndexValue(k) <= IndexValue(s[0])
    ensures AllIndices([k] + s) && Ascending([k] + s)
    ensures multiset([k] + s) == multiset(s) + multiset{k}
  {
    var r := [k] + s;
    forall i, j | 0 <= i < j < |r| ensures IndexValue(r[i]) <= IndexValue(r[j]) {
      assert r[j] == s[j - 1];
      if i > 0 {
        assert r[i] == s[i - 1];
      }
    }
  }

  lemma InsertBehind(k: string, s: seq<string>, tail: seq<string>)
    requires s != [] && AllIndices(s) && Ascending(s) && IndexValue(s[0]) < IndexValue(k)
    requires AllIndices(tail) && Ascending(tail) && multiset(tail) == multiset(s[1..]) + multiset{k}
    ensures AllIndices([s[0]] + tail) && Ascending([s[0]] + tail)
    ensures multiset([s[0]] + tail) == multiset(s) + multiset{k}
  {
    assert s == [s[0]] + s[1..];
    forall j | 0 <= j < |tail| ensures IndexValue(s[0]) <= IndexValue(tail[j]) {
      assert tail[j] in multiset(tail);
      if tail[j] != k {
        assert tail[j] in multiset(s[1..]);
        var m :| 0 <= m < |s[1..]| && s[1..][m] == tail[j];
        assert s[m + 1] == tail[j];
      }
    }
    var r := [s[0]] + tail;
    forall i, j | 0 <= i < j < |r| ensures IndexValue(r[i]) <= IndexValue(r[j]) {
      if i > 0 {
        assert r[i] == tail[i - 1] && r[j] == tail[j - 1];
      } else {
        assert r[j] == tail[j - 1];
      }
    }
  }

  /** The array indices of `s` in ascending numeric order. */
  function SortIndices(s: seq<string>): (r: seq<string>)
    requires AllIndices(s)
    ensures AllIndices(r) && Ascending(r)
    ensures multiset(r) == multiset(s)
  {
    if s == [] then []
    else
      assert s == [s[0]] + s[1..];
      InsertIndex(s[0], SortIndices(s[1..]))
  }

  /** `Object.keys(o)`: the array-index keys in ascending numeric order, then every other key in
      creation order. */
  function Keys(o: PlainObject): (r: seq<string>)
    requires o.Valid()
    ensures Distinct(r) && |r| == |o.props|
    ensures forall k | k in r :: k in o.props
    ensures forall k | k in o.props :: k in r
    ensures forall i, j | 0 <= i < j < |r| && IsArrayIndex(r[j]) ::
              IsArrayIndex(r[i]) && IndexValue(r[i]) < IndexValue(r[j])
    ensures Filter(IsNotArrayIndex, r) == Filter(IsNotArrayIndex, o.order)
  {
    var r := SortIndices(Filter(IsArrayIndex, o.order)) + Filter(IsNotArrayIndex, o.order);
    KeysFacts(o, r);
    r
  }

  /** An object without array-index keys lists its keys in creation order. */
  lemma KeysInCreationOrder(o: PlainObject)
    requires o.Valid()
    requires forall k | k in o.props :: !IsArrayIndex(k)
    ensures Keys(o) == o.order
  {
    var r := Keys(o);
    forall i | 0 <= i < |r| ensures IsNotArrayIndex(r[i]) {
      assert r[i] in o.props;
    }
    FilterAll(IsNotArrayIndex, r);
    forall i | 0 <= i < |o.order| ensures IsNotArrayIndex(o.order[i]) {
      assert o.order[i] in o.props;
    }
    FilterAll(IsNotArrayIndex, o.order);
  }

  lemma KeysFacts(o: PlainObject, r: seq<string>)
    requires o.Valid()
    requires r == SortIndices(Filter(IsArrayIndex, o.order)) + Filter(IsNotArrayIndex, o.order)
    ensures Distinct(r) && |r| == |o.props|
    ensures forall k | k in r :: k in o.props
    ensures forall k | k in o.props :: k in r
    ensures forall i, j | 0 <= i < j < |r| && IsArrayIndex(r[j]) ::
              IsArrayIndex(r[i]) && IndexValue(r[i]) < IndexValue(r[j])
    ensures Filter(IsNotArrayIndex, r) == Filter(IsNotArrayIndex, o.order)
  {
    KeysPermutation(o, r);
    KeysIndicesFirst(o, r);
    var indices := SortIndices(Filter(IsArrayIndex, o.order));
    var others := Filter(IsNotArrayIndex, o.order);
    FilterConcat(IsNotArrayIndex, indices, others);
    FilterNone(IsNotArrayIndex, indices);
    FilterAll(IsNotArrayIndex, others);
  }

  /** The keys listed are the own keys, each once. */
  lemma KeysPermutation(o: PlainObject, r: seq<string>)
    requires o.Valid()
    requires r == SortIndices(Filter(IsArrayIndex, o.order)) + Filter(IsNotArrayIndex, o.order)
    ensures Distinct(r) && |r| == |o.props|
    ensures forall k | k in r :: k in o.props
    ensures forall k | k in o.props :: k in r
  {
    FilterSplit(IsArrayIndex, IsNotArrayIndex, o.order);
    assert multiset(r) == multiset(o.order);
    assert |r| == |multiset(r)| == |multiset(o.order)| == |o.order|;
    DistinctPermutation(o.order, r);
    forall k | k in r ensures k in o.props {
      assert k in multiset(r);
    }
    forall k | k in o.props ensures k in r {
      assert k in multiset(o.order);
    }
  }

  /** The array-index keys come first, in strictly ascending numeric order. */
  lemma KeysIndicesFirst(o: PlainObject, r: seq<string>)
    requires o.Valid()
    requires r == SortIndices(Filter(IsArrayIndex, o.order)) + Filter(IsNotArrayIndex, o.order)
    requires Distinct(r)
    ensures forall i, j | 0 <= i < j < |r| && IsArrayIndex(r[j]) ::
              IsArrayIndex(r[i]) && IndexValue(r[i]) < IndexValue(r[j])
  {
    var indices := SortIndices(Filter(IsArrayIndex, o.order));
    forall i, j | 0 <= i < j < |r| && IsArrayIndex(r[j])
      ensures IsArrayIndex(r[i]) && IndexValue(r[i]) < IndexValue(r[j])
    {
      assert r[i] == indices[i] && r[j] == indices[j];
      ArrayIndexInjective(r[i], r[j]);
    }
  }
}
