/**
 * Query strings as the endpoint option builders make them: a url.Values that
 * the builder fills with Add in a fixed order, then Encode, which lists the
 * pairs sorted by key as `key=value` fields joined with '&' (the query
 * component of section 3.4 of RFC 3986), each key and value escaped the way
 * url.QueryEscape does (percent-encoding of section 2.1 of RFC 3986 applied to
 * the UTF-8 bytes, with a space written as '+').
 *
 * Also here: strconv.Itoa and strconv.FormatBool, and a reference parser
 * (Parse) that splits an encoded query back into its fields. Encode is
 * proved against Parse: parsing what Encode produced gives back the escaped
 * pairs, sorted by key.
 */
module Query {
  import opened Errors

  /** One value added under one key. */
  datatype Pair = Pair(key: string, value: string)

  /** A url.Values as a builder fills it: the pairs in the order they were added. */
  type Values = seq<Pair>

  /** url.Values.Get: the first value added under `k`, if any. */
  function Lookup(u: Values, k: string): Option<string>
  {
    if u == [] then None
    else if u[0].key == k then Some(u[0].value)
    else Lookup(u[1..], k)
  }

  /** The set of keys that have at least one value. */
  function Keys(u: Values): set<string>
  {
    set p | p in u :: p.key
  }

  lemma {:induction false} LookupNone(u: Values, k: string)
    ensures Lookup(u, k).None? <==> k !in Keys(u)
  {
    if u != [] {
      LookupNone(u[1..], k);
      assert Keys(u) == {u[0].key} + Keys(u[1..]);
    }
  }

  /**
   * The builders' guarded adds, `if cond { u.Add(k, v) }` one after another:
   * each pair with its condition, in the order of the adds.
   */
  datatype Guarded = Guarded(present: bool, pair: Pair)

  /** The values the guarded adds leave: the present pairs, in order. */
  function Present(g: seq<Guarded>): (u: Values)
    ensures |u| <= |g|
  {
    if g == [] then [] else (if g[0].present then [g[0].pair] else []) + Present(g[1..])
  }

  /** Adds made one after another: the values of the first run, then those of the second. */
  lemma {:induction false} PresentAppend(a: seq<Guarded>, b: seq<Guarded>)
    ensures Present(a + b) == Present(a) + Present(b)
  {
    if a == [] {
      assert a + b == b;
    } else {
      assert (a + b)[0] == a[0] && (a + b)[1..] == a[1..] + b;
      PresentAppend(a[1..], b);
    }
  }

  /** The values one add leaves: its pair when its condition held, nothing otherwise. */
  function Made(x: Guarded): (u: Values)
    ensures |u| <= 1
  {
    if x.present then [x.pair] else []
  }

  lemma PresentTwo(a: Guarded, b: Guarded)
    ensures Present([a, b]) == Made(a) + Made(b)
  {
    PresentAppend([a], [b]);
  }

  lemma PresentFour(a: Guarded, b: Guarded, c: Guarded, d: Guarded)
    ensures Present([a, b, c, d]) == Made(a) + Made(b) + Made(c) + Made(d)
  {
    PresentTwo(a, b);
    PresentTwo(c, d);
    PresentAppend([a, b], [c, d]);
    assert [a, b] + [c, d] == [a, b, c, d];
    var ab := Made(a) + Made(b);
    assert ab + (Made(c) + Made(d)) == ab + Made(c) + Made(d);
  }

  /** Eight adds in a row, as the ladder query builders make them. */
  lemma PresentEight(g: seq<Guarded>)
    requires |g| == 8
    ensures Present(g) ==
              Made(g[0]) + Made(g[1]) + Made(g[2]) + Made(g[3]) + Made(g[4]) + Made(g[5]) + Made(g[6]) + Made(g[7])
  {
    assert g == [g[0], g[1], g[2], g[3]] + [g[4], g[5], g[6], g[7]];
    PresentFour(g[0], g[1], g[2], g[3]);
    PresentFour(g[4], g[5], g[6], g[7]);
    PresentAppend([g[0], g[1], g[2], g[3]], [g[4], g[5], g[6], g[7]]);
    var front := Made(g[0]) + Made(g[1]) + Made(g[2]) + Made(g[3]);
    var e, f, h, k := Made(g[4]), Made(g[5]), Made(g[6]), Made(g[7]);
    assert front + (e + f + h + k) == front + e + f + h + k;
  }

  /** No add made: no values. */
  lemma {:induction false} PresentNone(g: seq<Guarded>)
    requires forall i :: 0 <= i < |g| ==> !g[i].present
    ensures Present(g) == []
  {
    if g != [] {
      assert forall i :: 0 <= i < |g[1..]| ==> g[1..][i] == g[i + 1];
      PresentNone(g[1..]);
    }
  }

  /** No key is guarded twice. */
  predicate DistinctKeys(g: seq<Guarded>)
  {
    forall i, j :: 0 <= i < j < |g| ==> g[i].pair.key != g[j].pair.key
  }

  /** The keys left are among the keys guarded. */
  lemma {:induction false} PresentKeys(g: seq<Guarded>)
    ensures forall p :: p in Present(g) ==> exists i :: 0 <= i < |g| && g[i].present && g[i].pair == p
    ensures Keys(Present(g)) <= set i | 0 <= i < |g| :: g[i].pair.key
    ensures (forall i :: 0 <= i < |g| ==> AllUnreserved(g[i].pair.key)) ==> UnreservedKeys(Present(g))
  {
    if g != [] {
      PresentKeys(g[1..]);
      forall p | p in Present(g) ensures exists i :: 0 <= i < |g| && g[i].present && g[i].pair == p {
        if !(g[0].present && p == g[0].pair) {
          assert p in Present(g[1..]);
          var i :| 0 <= i < |g[1..]| && g[1..][i].present && g[1..][i].pair == p;
          assert g[i + 1] == g[1..][i];
        }
      }
    }
    forall k | k in Keys(Present(g)) ensures exists i :: 0 <= i < |g| && g[i].pair.key == k {
      var p :| p in Present(g) && p.key == k;
    }
  }

  lemma {:induction false} LookupAbsent(g: seq<Guarded>, k: string)
    requires forall i :: 0 <= i < |g| ==> g[i].pair.key != k
    ensures Lookup(Present(g), k) == None
  {
    if g != [] {
      forall j | 0 <= j < |g[1..]| ensures g[1..][j].pair.key != k {
        assert g[1..][j] == g[j + 1];
      }
      LookupAbsent(g[1..], k);
      var rest := Present(g[1..]);
      var head: Values := if g[0].present then [g[0].pair] else [];
      assert Present(g) == head + rest;
      if g[0].present {
        assert (head + rest)[0] == g[0].pair;
        assert (head + rest)[1..] == rest;
      } else {
        assert head + rest == rest;
      }
    }
  }

  /**
   * With distinct keys, the first value under the key of the i-th add is the
   * value it adds, when its condition holds, and there is none otherwise.
   */
  lemma {:induction false} LookupPresent(g: seq<Guarded>, i: int)
    requires DistinctKeys(g) && 0 <= i < |g|
    ensures Lookup(Present(g), g[i].pair.key) == if g[i].present then Some(g[i].pair.value) else None
  {
    var k := g[i].pair.key;
    var rest := Present(g[1..]);
    var head: Values := if g[0].present then [g[0].pair] else [];
    assert Present(g) == head + rest;
    if g[0].present {
      assert (head + rest)[0] == g[0].pair;
      assert (head + rest)[1..] == rest;
    } else {
      assert head + rest == rest;
    }
    if i == 0 {
      if !g[0].present {
        forall j | 0 <= j < |g[1..]| ensures g[1..][j].pair.key != k {
          assert g[1..][j] == g[j + 1];
        }
        LookupAbsent(g[1..], k);
      }
    } else {
      assert g[1..][i - 1] == g[i];
      assert DistinctKeys(g[1..]) by {
        forall a, b | 0 <= a < b < |g[1..]| ensures g[1..][a].pair.key != g[1..][b].pair.key {
          assert g[1..][a] == g[a + 1] && g[1..][b] == g[b + 1];
        }
      }
      assert g[0].pair.key != k;
      LookupPresent(g[1..], i - 1);
    }
  }

  // ---------------------------------------------------------------------------
  // Ordering of keys (sort.Strings: byte-wise, i.e. code-point-wise lexicographic)

  /** `a` sorts no later than `b`. */
  predicate KeyLe(a: string, b: string)
  {
    |a| == 0 || (|b| > 0 && (a[0] < b[0] || (a[0] == b[0] && KeyLe(a[1..], b[1..]))))
  }

  lemma {:induction false} KeyLeReflexive(a: string)
    ensures KeyLe(a, a)
  {
    if |a| > 0 { KeyLeReflexive(a[1..]); }
  }

  lemma {:induction false} KeyLeTotal(a: string, b: string)
    ensures KeyLe(a, b) || KeyLe(b, a)
  {
    if |a| > 0 && |b| > 0 && a[0] == b[0] { KeyLeTotal(a[1..], b[1..]); }
  }

  lemma {:induction false} KeyLeTransitive(a: string, b: string, c: string)
    requires KeyLe(a, b) && KeyLe(b, c)
    ensures KeyLe(a, c)
  {
    if |a| > 0 && |b| > 0 && |c| > 0 && a[0] == b[0] && b[0] == c[0] {
      KeyLeTransitive(a[1..], b[1..], c[1..]);
    }
  }

  /** Every key sorts no later than every key after it. */
  ghost predicate SortedByKey(u: Values)
  {
    forall i, j :: 0 <= i < j < |u| ==> KeyLe(u[i].key, u[j].key)
  }

  /**
   * Puts `p` in front of the first pair whose key does not sort before it, so
   * that a pair added earlier stays ahead of later pairs with the same key.
   */
  function Insert(p: Pair, u: Values): (r: Values)
    ensures multiset(r) == multiset(u) + multiset{p}
    ensures |r| == |u| + 1
  {
    if u == [] then [p]
    else if KeyLe(p.key, u[0].key) then [p] + u
    else
      assert u == [u[0]] + u[1..];
      [u[0]] + Insert(p, u[1..])
  }

  lemma {:induction false} InsertSorted(p: Pair, u: Values)
    requires SortedByKey(u)
    ensures SortedByKey(Insert(p, u))
  {
    if u == [] {
    } else if KeyLe(p.key, u[0].key) {
      InsertFrontSorted(p, u);
    } else {
      assert SortedByKey(u[1..]) by {
        forall i, j | 0 <= i < j < |u[1..]| ensures KeyLe(u[1..][i].key, u[1..][j].key) {
          assert u[1..][i] == u[i + 1] && u[1..][j] == u[j + 1];
        }
      }
      InsertSorted(p, u[1..]);
      assert u == [u[0]] + u[1..];
      InsertBehindSorted(p, u[0], Insert(p, u[1..]), u[1..]);
    }
  }

  /** Insert keeps the first value of every key other than p's, and p's value comes first for p's key. */
  lemma {:induction false} InsertLookup(p: Pair, u: Values, k: string)
    ensures Lookup(Insert(p, u), k) == if p.key == k then Some(p.value) else Lookup(u, k)
  {
    if u != [] && !KeyLe(p.key, u[0].key) {
      var r := Insert(p, u);
      assert r[1..] == Insert(p, u[1..]);
      KeyLeReflexive(p.key);
      InsertLookup(p, u[1..], k);
    }
  }

  lemma InsertFrontSorted(p: Pair, u: Values)
    requires SortedByKey(u) && u != [] && KeyLe(p.key, u[0].key)
    ensures SortedByKey([p] + u)
  {
    forall i, j | 0 <= i < j < |[p] + u| ensures KeyLe(([p] + u)[i].key, ([p] + u)[j].key) {
      if i == 0 && j > 1 { KeyLeTransitive(p.key, u[0].key, u[j - 1].key); }
    }
  }

  lemma HeadBeforeAll(p: Pair, head: Pair, rest: Values, tail: Values, j: int)
    requires SortedByKey([head] + tail)
    requires multiset(rest) == multiset(tail) + multiset{p}
    requires !KeyLe(p.key, head.key)
    requires 0 <= j < |rest|
    ensures KeyLe(head.key, rest[j].key)
  {
    var x := rest[j];
    assert x in multiset(rest);
    if x == p {
      KeyLeTotal(p.key, head.key);
    } else {
      assert x in multiset(tail);
      assert x in tail;
      var t :| 0 <= t < |tail| && tail[t] == x;
      assert ([head] + tail)[0] == head && ([head] + tail)[t + 1] == x;
    }
  }

  lemma InsertBehindSorted(p: Pair, head: Pair, rest: Values, tail: Values)
    requires SortedByKey([head] + tail) && SortedByKey(rest)
    requires multiset(rest) == multiset(tail) + multiset{p}
    requires !KeyLe(p.key, head.key)
    ensures SortedByKey([head] + rest)
  {
    forall i, j | 0 <= i < j < |[head] + rest| ensures KeyLe(([head] + rest)[i].key, ([head] + rest)[j].key) {
      if i == 0 {
        HeadBeforeAll(p, head, rest, tail, j - 1);
      } else {
        assert ([head] + rest)[i] == rest[i - 1] && ([head] + rest)[j] == rest[j - 1];
      }
    }
  }

  lemma {:induction false} KeyLeAntisymmetric(a: string, b: string)
    requires KeyLe(a, b) && KeyLe(b, a)
    ensures a == b
  {
    if |a| > 0 {
      KeyLeAntisymmetric(a[1..], b[1..]);
      assert a == [a[0]] + a[1..] && b == [b[0]] + b[1..];
    }
  }

  /** Each key sorts before the next one and differs from it. */
  predicate StrictlySorted(u: Values)
  {
    forall i :: 0 <= i < |u| - 1 ==> KeyLe(u[i].key, u[i + 1].key) && u[i].key != u[i + 1].key
  }

  /** A strictly sorted list is sorted and has no key twice. */
  lemma {:induction false} StrictlySortedDistinct(u: Values)
    requires StrictlySorted(u)
    ensures SortedByKey(u)
    ensures forall i, j :: 0 <= i < j < |u| ==> u[i].key != u[j].key
  {
    if u != [] {
      var t := u[1..];
      assert StrictlySorted(t) by {
        forall i | 0 <= i < |t| - 1 ensures KeyLe(t[i].key, t[i + 1].key) && t[i].key != t[i + 1].key {
          assert t[i] == u[i + 1] && t[i + 1] == u[i + 2];
        }
      }
      StrictlySortedDistinct(t);
      forall j | 1 <= j < |u| ensures KeyLe(u[0].key, u[j].key) && u[0].key != u[j].key {
        assert t[j - 1] == u[j];
        if j > 1 {
          assert t[0] == u[1];
          KeyLeTransitive(u[0].key, u[1].key, u[j].key);
          if u[0].key == u[j].key {
            KeyLeAntisymmetric(u[0].key, u[1].key);
          }
        }
      }
      forall i, j | 0 <= i < j < |u| ensures KeyLe(u[i].key, u[j].key) && u[i].key != u[j].key {
        if i > 0 {
          assert t[i - 1] == u[i] && t[j - 1] == u[j];
        }
      }
    }
  }

  lemma SortedTail(u: Values)
    requires u != [] && SortedByKey(u)
    ensures SortedByKey(u[1..])
  {
    forall x, y | 0 <= x < y < |u[1..]| ensures KeyLe(u[1..][x].key, u[1..][y].key) {
      assert u[1..][x] == u[x + 1] && u[1..][y] == u[y + 1];
    }
  }

  /** Two sorted, non-empty lists holding the same pairs, one with no key twice, start alike. */
  lemma SortedHeads(a: Values, b: Values)
    requires a != [] && SortedByKey(a) && SortedByKey(b) && multiset(a) == multiset(b)
    requires forall i, j :: 0 <= i < j < |a| ==> a[i].key != a[j].key
    ensures a[0] == b[0]
  {
    assert a[0] in multiset(b) && b[0] in multiset(a);
    var j :| 0 <= j < |b| && b[j] == a[0];
    var i :| 0 <= i < |a| && a[i] == b[0];
    if i != 0 {
      assert KeyLe(a[0].key, a[i].key);
      if j != 0 {
        assert KeyLe(b[0].key, b[j].key);
        KeyLeAntisymmetric(a[0].key, b[0].key);
      }
      assert false;
    }
  }

  /** Two sorted lists holding the same pairs, one of them with no key twice, are the same list. */
  lemma {:induction false} SortedUnique(a: Values, b: Values)
    requires SortedByKey(a) && SortedByKey(b) && multiset(a) == multiset(b)
    requires DistinctPairKeys(a)
    ensures a == b
  {
    if a == [] {
      assert |b| == |multiset(b)| == 0;
    } else {
      assert |b| == |multiset(b)| == |a| > 0;
      SortedHeads(a, b);
      TailMultiset(a);
      TailMultiset(b);
      assert multiset(a[1..]) == multiset(b[1..]);
      SortedTail(a);
      SortedTail(b);
      DropFirst(a);
      SortedUnique(a[1..], b[1..]);
      assert a == [a[0]] + a[1..] && b == [b[0]] + b[1..];
    }
  }

  lemma TailMultiset(a: Values)
    requires a != []
    ensures multiset(a[1..]) == multiset(a) - multiset{a[0]}
  {
    assert a == [a[0]] + a[1..];
  }

  /** The order sort.Strings puts the keys of the ladder queries in. */
  lemma LadderKeyOrder()
    ensures KeyLe("accountName", "difficulty") && KeyLe("accountName", "limit")
    ensures KeyLe("difficulty", "limit") && KeyLe("limit", "offset") && KeyLe("offset", "realm")
    ensures KeyLe("realm", "start") && KeyLe("realm", "track") && KeyLe("start", "track")
    ensures KeyLe("track", "type")
  {
    assert KeyLe("rack", "ype");
  }

  /** The keys of the ladder queries need no escaping. */
  lemma LadderKeysUnreserved()
    ensures AllUnreserved("accountName") && AllUnreserved("difficulty") && AllUnreserved("limit")
    ensures AllUnreserved("offset") && AllUnreserved("realm") && AllUnreserved("start")
    ensures AllUnreserved("track") && AllUnreserved("type")
  {
  }

  /**
   * The order Encode writes the pairs in: sorted by key, and for one key in the
   * order its values were added (a stable sort).
   */
  function SortByKey(u: Values): (r: Values)
    ensures SortedByKey(r)
    ensures multiset(r) == multiset(u) && |r| == |u|
  {
    if u == [] then []
    else
      var rest := SortByKey(u[1..]);
      InsertSorted(u[0], rest);
      assert u == [u[0]] + u[1..];
      assert multiset(u) == multiset{u[0]} + multiset(u[1..]);
      Insert(u[0], rest)
  }

  /** Sorting is stable: the first value added under a key is still the first one after sorting. */
  lemma {:induction false} SortKeepsLookup(u: Values, k: string)
    ensures Lookup(SortByKey(u), k) == Lookup(u, k)
  {
    if u != [] {
      InsertLookup(u[0], SortByKey(u[1..]), k);
      SortKeepsLookup(u[1..], k);
    }
  }

  // ---------------------------------------------------------------------------
  // url.QueryEscape

  /** The characters QueryEscape leaves alone (section 2.3 of RFC 3986). */
  predicate Unreserved(c: char)
  {
    ('A' <= c <= 'Z') || ('a' <= c <= 'z') || ('0' <= c <= '9') || c == '-' || c == '_' || c == '.' || c == '~'
  }

  predicate AllUnreserved(s: string)
  {
    forall i :: 0 <= i < |s| ==> Unreserved(s[i])
  }

  /** AllUnreserved, checked one character at a time (so that it evaluates on literals). */
  predicate Plain(s: string)
  {
    s == [] || (Unreserved(s[0]) && Plain(s[1..]))
  }

  lemma {:induction false} PlainIsUnreserved(s: string)
    requires Plain(s)
    ensures AllUnreserved(s)
  {
    if s != [] {
      PlainIsUnreserved(s[1..]);
      assert forall i :: 1 <= i < |s| ==> s[i] == s[1..][i - 1];
    }
  }

  /** A character QueryEscape can produce. */
  predicate EscapedChar(c: char)
  {
    Unreserved(c) || c == '%' || c == '+'
  }

  predicate AllEscaped(s: string)
  {
    forall i :: 0 <= i < |s| ==> EscapedChar(s[i])
  }

  const HexDigits: string := "0123456789ABCDEF"

  /** The UTF-8 encoding of one Unicode scalar value. */
  function Utf8(c: char): (bytes: seq<int>)
    ensures 1 <= |bytes| <= 4
    ensures forall i :: 0 <= i < |bytes| ==> 0 <= bytes[i] < 256
  {
    var n := c as int;
    if n < 0x80 then [n]
    else if n < 0x800 then [0xC0 + n / 64, 0x80 + n % 64]
    else if n < 0x1_0000 then [0xE0 + n / 4096, 0x80 + (n / 64) % 64, 0x80 + n % 64]
    else [0xF0 + n / 262144, 0x80 + (n / 4096) % 64, 0x80 + (n / 64) % 64, 0x80 + n % 64]
  }

  /** `%XX` with upper-case hexadecimal digits for every byte. */
  function PercentEncode(bytes: seq<int>): (r: string)
    requires forall i :: 0 <= i < |bytes| ==> 0 <= bytes[i] < 256
    ensures |r| == 3 * |bytes|
    ensures AllEscaped(r)
    ensures bytes != [] ==> r[0] == '%'
  {
    if bytes == [] then ""
    else ['%', HexDigits[bytes[0] / 16], HexDigits[bytes[0] % 16]] + PercentEncode(bytes[1..])
  }

  /** The i-th byte is written at position 3i as `%` and its two upper-case hexadecimal digits. */
  lemma {:induction false} PercentEncodeAt(bytes: seq<int>, i: nat)
    requires forall i :: 0 <= i < |bytes| ==> 0 <= bytes[i] < 256
    requires i < |bytes|
    ensures var r, k := PercentEncode(bytes), 3 * i;
            r[k] == '%' && r[k + 1] == HexDigits[bytes[i] / 16] && r[k + 2] == HexDigits[bytes[i] % 16]
  {
    var rest := PercentEncode(bytes[1..]);
    assert PercentEncode(bytes) == ['%', HexDigits[bytes[0] / 16], HexDigits[bytes[0] % 16]] + rest;
    if i > 0 {
      PercentEncodeAt(bytes[1..], i - 1);
      assert bytes[1..][i - 1] == bytes[i] && 3 * i == 3 * (i - 1) + 3;
    }
  }

  /** Every byte becomes its own `%XX` triple, in order. */
  lemma PercentEncodeTriples(bytes: seq<int>)
    requires forall i :: 0 <= i < |bytes| ==> 0 <= bytes[i] < 256
    ensures var r := PercentEncode(bytes);
            forall i :: 0 <= i < |bytes| ==>
              r[3 * i] == '%' && r[3 * i + 1] == HexDigits[bytes[i] / 16] && r[3 * i + 2] == HexDigits[bytes[i] % 16]
  {
    forall i | 0 <= i < |bytes|
      ensures var r := PercentEncode(bytes);
              r[3 * i] == '%' && r[3 * i + 1] == HexDigits[bytes[i] / 16] && r[3 * i + 2] == HexDigits[bytes[i] % 16]
    {
      PercentEncodeAt(bytes, i);
    }
  }

  /**
   * One character of QueryEscape: unreserved characters stay, a space becomes
   * `+`, and anything else becomes the `%XX` triples of its UTF-8 bytes.
   */
  function EscapeChar(c: char): (r: string)
    ensures AllEscaped(r) && r != []
    ensures Unreserved(r[0]) <==> Unreserved(c)
    ensures Unreserved(c) ==> r == [c]
    ensures c == ' ' ==> r == "+"
    ensures !Unreserved(c) && c != ' ' ==>
              r[0] == '%' && |r| % 3 == 0 && 3 <= |r| <= 12 && r == PercentEncode(Utf8(c))
  {
    if Unreserved(c) then [c]
    else if c == ' ' then "+"
    else PercentEncode(Utf8(c))
  }

  /** url.QueryEscape. */
  function Escape(s: string): (r: string)
    ensures AllEscaped(r)
    ensures AllUnreserved(s) ==> r == s
    ensures |s| <= |r| <= 12 * |s|
  {
    if s == [] then ""
    else
      var r := EscapeChar(s[0]) + Escape(s[1..]);
      assert AllUnreserved(s) ==> AllUnreserved(s[1..]);
      r
  }

  /** Escaping works character by character: one character escapes as EscapeChar says. */
  lemma EscapeOne(c: char)
    ensures Escape([c]) == EscapeChar(c)
  {
    assert [c][1..] == [];
  }

  /** ... and the escape of a concatenation is the concatenation of the escapes. */
  lemma {:induction false} EscapeAppend(s: string, t: string)
    ensures Escape(s + t) == Escape(s) + Escape(t)
  {
    if s != [] {
      assert (s + t)[0] == s[0] && (s + t)[1..] == s[1..] + t;
      EscapeAppend(s[1..], t);
    } else {
      assert s + t == t;
    }
  }

  /** Escape changes every string that has a character outside the unreserved set. */
  lemma {:induction false} EscapeKeepsOnlyUnreserved(s: string)
    requires AllUnreserved(Escape(s))
    ensures AllUnreserved(s) && Escape(s) == s
  {
    if s != [] {
      var e := EscapeChar(s[0]);
      assert Escape(s) == e + Escape(s[1..]);
      assert Escape(s)[0] == e[0];
      assert Unreserved(s[0]);
      forall i | 0 <= i < |Escape(s[1..])| ensures Unreserved(Escape(s[1..])[i]) {
        assert Escape(s)[|e| + i] == Escape(s[1..])[i];
      }
      EscapeKeepsOnlyUnreserved(s[1..]);
    }
  }

  /** A string of unreserved characters is the escape of itself and of nothing else. */
  lemma EscapeInjectiveAtUnreserved(s: string, t: string)
    requires AllUnreserved(t) && Escape(s) == t
    ensures s == t
  {
    EscapeKeepsOnlyUnreserved(s);
  }

  function EscapePair(p: Pair): Pair
  {
    Pair(Escape(p.key), Escape(p.value))
  }

  function EscapePairs(u: Values): (r: Values)
    ensures |r| == |u|
    ensures forall i :: 0 <= i < |u| ==> r[i] == EscapePair(u[i])
  {
    if u == [] then [] else [EscapePair(u[0])] + EscapePairs(u[1..])
  }

  // ---------------------------------------------------------------------------
  // Encode and its reference parser

  function Field(p: Pair): string
  {
    p.key + "=" + p.value
  }

  /** The fields joined with '&'. */
  function Join(u: Values): string
  {
    if u == [] then ""
    else if |u| == 1 then Field(u[0])
    else Field(u[0]) + "&" + Join(u[1..])
  }

  /** strings.Split(s, "&"): the pieces between the '&' characters. */
  function SplitAmp(s: string): (parts: seq<string>)
    ensures |parts| >= 1
  {
    if s == [] then [""]
    else if s[0] == '&' then [""] + SplitAmp(s[1..])
    else
      var rest := SplitAmp(s[1..]);
      [[s[0]] + rest[0]] + rest[1..]
  }

  /** A field split at its first '='; a field without one is a key with an empty value. */
  function Cut(f: string): Pair
  {
    if f == [] then Pair("", "")
    else if f[0] == '=' then Pair("", f[1..])
    else
      var p := Cut(f[1..]);
      Pair([f[0]] + p.key, p.value)
  }

  function CutAll(fs: seq<string>): (r: Values)
    ensures |r| == |fs|
  {
    if fs == [] then [] else [Cut(fs[0])] + CutAll(fs[1..])
  }

  /** The fields of an encoded query, in the order they are written. */
  function Parse(s: string): Values
  {
    if s == "" then [] else CutAll(SplitAmp(s))
  }

  lemma {:induction false} SplitAmpOne(a: string)
    requires '&' !in a
    ensures SplitAmp(a) == [a]
  {
    if a != [] {
      SplitAmpOne(a[1..]);
      assert [a[0]] + a[1..] == a;
    }
  }

  lemma {:induction false} SplitAmpCons(a: string, b: string)
    requires '&' !in a
    ensures SplitAmp(a + "&" + b) == [a] + SplitAmp(b)
  {
    var s := a + "&" + b;
    if a == [] {
      assert s[0] == '&' && s[1..] == b;
    } else {
      assert s[0] == a[0] && s[1..] == a[1..] + "&" + b;
      SplitAmpCons(a[1..], b);
      assert [a[0]] + a[1..] == a;
    }
  }

  lemma {:induction false} CutField(k: string, v: string)
    requires '=' !in k
    ensures Cut(k + "=" + v) == Pair(k, v)
  {
    var f := k + "=" + v;
    if k == [] {
      assert f[0] == '=' && f[1..] == v;
    } else {
      assert f[0] == k[0] && f[1..] == k[1..] + "=" + v;
      CutField(k[1..], v);
      assert [k[0]] + k[1..] == k;
    }
  }

  /** Keys without '&' or '=' and values without '&' can be read back. */
  predicate Separable(u: Values)
  {
    forall i :: 0 <= i < |u| ==> '&' !in u[i].key && '=' !in u[i].key && '&' !in u[i].value
  }

  /** Parse inverts Join on pairs whose keys and values hold no separators. */
  lemma {:induction false} ParseJoin(u: Values)
    requires Separable(u)
    ensures Parse(Join(u)) == u
  {
    if u == [] {
    } else {
      var f := Field(u[0]);
      assert '&' !in f by {
        assert forall i :: 0 <= i < |f| ==> f[i] != '&' by {
          forall i | 0 <= i < |f| ensures f[i] != '&' {
            if i < |u[0].key| { assert f[i] == u[0].key[i]; }
            else if i > |u[0].key| { assert f[i] == u[0].value[i - |u[0].key| - 1]; }
          }
        }
      }
      CutField(u[0].key, u[0].value);
      if |u| == 1 {
        SplitAmpOne(f);
      } else {
        var rest := u[1..];
        assert Separable(rest) by {
          forall i | 0 <= i < |rest| ensures '&' !in rest[i].key && '=' !in rest[i].key && '&' !in rest[i].value {
            assert rest[i] == u[i + 1];
          }
        }
        ParseJoin(rest);
        var j := Join(rest);
        assert j != "" by {
          assert |Field(rest[0])| > 0;
          if |rest| > 1 { assert j == Field(rest[0]) + "&" + Join(rest[1..]); }
        }
        SplitAmpCons(f, j);
        assert SplitAmp(Join(u)) == [f] + SplitAmp(j);
        assert Join(u) != "";
        assert CutAll([f] + SplitAmp(j)) == [Cut(f)] + CutAll(SplitAmp(j)) by {
          assert ([f] + SplitAmp(j))[1..] == SplitAmp(j);
        }
        assert Parse(j) == CutAll(SplitAmp(j));
        assert u == [u[0]] + rest;
      }
    }
  }

  lemma EscapedHasNoSeparator(s: string)
    requires AllEscaped(s)
    ensures '&' !in s && '=' !in s
  {
    assert forall i :: 0 <= i < |s| ==> s[i] != '&' && s[i] != '=';
  }

  lemma EscapedSeparable(u: Values)
    ensures Separable(EscapePairs(u))
  {
    var e := EscapePairs(u);
    forall i | 0 <= i < |e| ensures '&' !in e[i].key && '=' !in e[i].key && '&' !in e[i].value {
      EscapedHasNoSeparator(e[i].key);
      EscapedHasNoSeparator(e[i].value);
    }
  }


  /**
   * url.Values.Encode: the pairs sorted by key (values of one key in the order
   * added), each written `QueryEscape(key)=QueryEscape(value)`, joined with '&'.
   * Parsing the result gives exactly those escaped pairs back, in that order.
   */
  function Encode(u: Values): (r: string)
    ensures Parse(r) == EscapePairs(SortByKey(u))
  {
    var fields := EscapePairs(SortByKey(u));
    EscapedSeparable(SortByKey(u));
    ParseJoin(fields);
    Join(fields)
  }

  /** Pairs written entirely with unreserved characters are encoded as they are. */
  lemma {:induction false} EscapePairsUnreserved(u: Values)
    requires forall i :: 0 <= i < |u| ==> AllUnreserved(u[i].key) && AllUnreserved(u[i].value)
    ensures EscapePairs(u) == u
  {
  }

  predicate UnreservedKeys(u: Values)
  {
    forall p :: p in u ==> AllUnreserved(p.key)
  }

  function EscapeOption(o: Option<string>): Option<string>
  {
    match o
    case None => None
    case Some(v) => Some(Escape(v))
  }

  lemma {:induction false} LookupEscaped(u: Values, k: string)
    requires AllUnreserved(k)
    ensures Lookup(EscapePairs(u), k) == EscapeOption(Lookup(u, k))
  {
    if u != [] {
      var e := EscapePairs(u);
      assert e[1..] == EscapePairs(u[1..]);
      if u[0].key == k {
      } else {
        if Escape(u[0].key) == k { EscapeInjectiveAtUnreserved(u[0].key, k); }
        LookupEscaped(u[1..], k);
      }
    }
  }

  /**
   * What the encoded query says about a key written with unreserved characters:
   * the (escaped) first value added under it, or nothing when none was added.
   */
  lemma LookupEncoded(u: Values, k: string)
    requires AllUnreserved(k)
    ensures Lookup(Parse(Encode(u)), k) == EscapeOption(Lookup(u, k))
  {
    LookupEscaped(SortByKey(u), k);
    SortKeepsLookup(u, k);
  }

  /**
   * What the encoded query says about the key of the i-th guarded add: its
   * escaped value when the add was made, nothing otherwise.
   */
  lemma EncodedPresent(g: seq<Guarded>, i: int)
    requires DistinctKeys(g) && 0 <= i < |g| && AllUnreserved(g[i].pair.key)
    ensures Lookup(Parse(Encode(Present(g))), g[i].pair.key) ==
              if g[i].present then Some(Escape(g[i].pair.value)) else None
  {
    LookupPresent(g, i);
    LookupEncoded(Present(g), g[i].pair.key);
  }

  /**
   * The encoded query of guarded adds is sorted, uses only the adds' keys, and
   * has one field for every add that was made.
   */
  lemma EncodedGuardKeys(g: seq<Guarded>, ks: set<string>)
    requires forall i :: 0 <= i < |g| ==> g[i].pair.key in ks && AllUnreserved(g[i].pair.key)
    ensures var p := Parse(Encode(Present(g)));
            Keys(p) <= ks && SortedByKey(p) && |p| == |Present(g)|
  {
    PresentKeys(g);
    EncodedKeys(Present(g));
  }

  /** No key appears twice. */
  predicate DistinctPairKeys(u: Values)
  {
    forall i, j :: 0 <= i < j < |u| ==> u[i].key != u[j].key
  }

  /** Taking one pair out of a list with no key twice leaves a list with no key twice. */
  lemma RemoveAt(s: Values, j: nat)
    requires j < |s| && DistinctPairKeys(s)
    ensures DistinctPairKeys(s[..j] + s[j + 1..])
  {
    var t := s[..j] + s[j + 1..];
    forall a, b | 0 <= a < b < |t| ensures t[a].key != t[b].key {
      var a', b' := if a < j then a else a + 1, if b < j then b else b + 1;
      assert t[a] == s[a'] && t[b] == s[b'];
    }
  }

  /** Without its first pair, a list with no key twice still has no key twice. */
  lemma DropFirst(u: Values)
    requires u != [] && DistinctPairKeys(u)
    ensures DistinctPairKeys(u[1..])
    ensures forall i :: 0 <= i < |u[1..]| ==> u[1..][i].key != u[0].key
  {
    forall a, b | 0 <= a < b < |u[1..]| ensures u[1..][a].key != u[1..][b].key {
      assert u[1..][a] == u[a + 1] && u[1..][b] == u[b + 1];
    }
    forall i | 0 <= i < |u[1..]| ensures u[1..][i].key != u[0].key {
      assert u[1..][i] == u[i + 1];
    }
  }

  /**
   * Two lists of the same length, neither with a key twice, where every pair
   * of the first is also in the second, hold the same pairs.
   */
  lemma {:induction false} SamePairs(u: Values, s: Values)
    requires |u| == |s| && DistinctPairKeys(u) && DistinctPairKeys(s)
    requires forall i :: 0 <= i < |u| ==> u[i] in s
    ensures multiset(u) == multiset(s)
  {
    if u != [] {
      var j :| 0 <= j < |s| && s[j] == u[0];
      var t := s[..j] + s[j + 1..];
      assert s == s[..j] + [s[j]] + s[j + 1..];
      RemoveAt(s, j);
      var v := u[1..];
      DropFirst(u);
      forall i | 0 <= i < |v| ensures v[i] in t {
        assert v[i] == u[i + 1];
      }
      SamePairs(v, t);
      assert u == [u[0]] + v;
    }
  }

  /**
   * Pairs written in unreserved characters whose strictly sorted order is `s`
   * are encoded as `s` joined: the fields in key order, separated by `&`.
   */
  lemma EncodeInOrder(u: Values, s: Values)
    requires multiset(u) == multiset(s) && StrictlySorted(s)
    requires forall i :: 0 <= i < |s| ==> AllUnreserved(s[i].key) && AllUnreserved(s[i].value)
    ensures Encode(u) == Join(s)
  {
    StrictlySortedDistinct(s);
    SortedUnique(s, SortByKey(u));
    EscapePairsUnreserved(s);
  }

  /** No pairs encode to the empty string. */
  lemma EncodeNone()
    ensures Encode([]) == ""
  {
    assert SortByKey([]) == [] && EscapePairs([]) == [];
  }

  /** A single pair whose key needs no escaping is encoded as `key=` and the escaped value. */
  lemma EncodeOne(p: Pair)
    requires AllUnreserved(p.key)
    ensures Encode([p]) == p.key + "=" + Escape(p.value)
    ensures |Parse(Encode([p]))| == 1
  {
    assert SortByKey([p]) == [p];
    assert EscapePairs([p]) == [EscapePair(p)];
  }

  /** A single pair written in unreserved characters is encoded as `key=value`. */
  lemma EncodeSingle(p: Pair)
    requires AllUnreserved(p.key) && AllUnreserved(p.value)
    ensures Encode([p]) == p.key + "=" + p.value
  {
    assert SortByKey([p]) == [p];
    EscapePairsUnreserved([p]);
  }

  /**
   * Two pairs written in unreserved characters, added out of key order, are
   * encoded in key order: `b.key=b.value&a.key=a.value`.
   */
  lemma EncodeSwapped(a: Pair, b: Pair)
    requires AllUnreserved(a.key) && AllUnreserved(a.value) && AllUnreserved(b.key) && AllUnreserved(b.value)
    requires !KeyLe(a.key, b.key)
    ensures Encode([a, b]) == b.key + "=" + b.value + "&" + a.key + "=" + a.value
  {
    assert [a, b][1..] == [b];
    assert SortByKey([b]) == [b];
    assert SortByKey([a, b]) == Insert(a, [b]);
    assert Insert(a, [b]) == [b, a];
    EscapePairsUnreserved([b, a]);
    assert Join([b, a]) == Field(b) + "&" + Field(a);
  }

  lemma EscapePairsKeepsUnreservedKeys(s: Values)
    requires UnreservedKeys(s)
    ensures forall i :: 0 <= i < |s| ==> EscapePairs(s)[i].key == s[i].key
  {
    forall i | 0 <= i < |s| ensures EscapePairs(s)[i].key == s[i].key {
      assert s[i] in s;
    }
  }

  lemma SameKeysAt(s: Values, e: Values)
    requires |s| == |e| && forall i :: 0 <= i < |s| ==> e[i].key == s[i].key
    ensures Keys(e) == Keys(s)
    ensures SortedByKey(s) ==> SortedByKey(e)
  {
    forall k | k in Keys(e) ensures k in Keys(s) {
      var p :| p in e && p.key == k;
      var i :| 0 <= i < |e| && e[i] == p;
      assert s[i] in s;
    }
    forall k | k in Keys(s) ensures k in Keys(e) {
      var p :| p in s && p.key == k;
      var i :| 0 <= i < |s| && s[i] == p;
      assert e[i] in e;
    }
  }

  lemma PermutationKeys(s: Values, u: Values)
    requires multiset(s) == multiset(u)
    ensures Keys(s) == Keys(u)
    ensures UnreservedKeys(u) ==> UnreservedKeys(s)
  {
    forall k | k in Keys(s) ensures k in Keys(u) {
      var p :| p in s && p.key == k;
      assert p in multiset(u);
    }
    forall k | k in Keys(u) ensures k in Keys(s) {
      var p :| p in u && p.key == k;
      assert p in multiset(s);
    }
    forall p | p in s ensures p in u {
      assert p in multiset(u);
    }
  }

  /**
   * When every key is written with unreserved characters, the encoded query
   * has exactly the keys added, one field per pair added, in sorted order.
   */
  lemma EncodedKeys(u: Values)
    requires UnreservedKeys(u)
    ensures Keys(Parse(Encode(u))) == Keys(u)
    ensures |Parse(Encode(u))| == |u|
    ensures SortedByKey(Parse(Encode(u)))
  {
    var s := SortByKey(u);
    PermutationKeys(s, u);
    EscapePairsKeepsUnreservedKeys(s);
    SameKeysAt(s, EscapePairs(s));
  }

  // ---------------------------------------------------------------------------
  // strconv

  /** strconv.FormatBool. */
  function FormatBool(b: bool): (r: string)
    ensures AllUnreserved(r)
  {
    if b then "true" else "false"
  }

  function Digit(d: nat): (c: char)
    requires d < 10
    ensures '0' <= c <= '9'
  {
    "0123456789"[d]
  }

  predicate AllDigits(s: string)
  {
    forall i :: 0 <= i < |s| ==> '0' <= s[i] <= '9'
  }

  /** Decimal digits of a natural number, without leading zeros. */
  function NatToDecimal(n: nat): (s: string)
    ensures |s| >= 1 && AllDigits(s)
    ensures |s| > 1 ==> s[0] != '0'
  {
    if n < 10 then [Digit(n)] else NatToDecimal(n / 10) + [Digit(n % 10)]
  }

  /** strconv.Itoa: a '-' in front of negative numbers. */
  function Itoa(i: int): (s: string)
    ensures AllUnreserved(s)
  {
    if i < 0 then "-" + NatToDecimal(-i) else NatToDecimal(i)
  }

  /** The limit and the first offsets GetLadder sends. */
  lemma ItoaLiteral200()
    ensures Itoa(200) == "200" && Itoa(400) == "400"
  {
    assert NatToDecimal(2) == "2" && NatToDecimal(4) == "4";
  }

  lemma DecimalPrefix156()
    ensures NatToDecimal(156) == "156"
  {
    assert NatToDecimal(1) == "1";
    assert NatToDecimal(15) == "15";
  }

  lemma DecimalPrefix156528()
    ensures NatToDecimal(156528) == "156528"
  {
    DecimalPrefix156();
    assert NatToDecimal(1565) == "1565";
    assert NatToDecimal(15652) == "15652";
  }

  lemma DecimalPrefix156528360()
    ensures NatToDecimal(156528360) == "156528360"
  {
    DecimalPrefix156528();
    assert NatToDecimal(1565283) == "1565283";
    assert NatToDecimal(15652836) == "15652836";
  }

  /** The labyrinth start time of the ladder tests. */
  lemma ItoaLiteralStart()
    ensures Itoa(1565283600) == "1565283600"
  {
    DecimalPrefix156528360();
  }

  /** The number a string of decimal digits denotes. */
  function DigitsValue(s: string): nat
    requires AllDigits(s)
  {
    if s == [] then 0 else DigitsValue(s[..|s| - 1]) * 10 + (s[|s| - 1] as int - '0' as int)
  }

  /** Reads back what Itoa writes: an optional '-' and digits. */
  function Atoi(s: string): int
    requires Signed(s)
  {
    if s[0] == '-' then 0 - DigitsValue(s[1..]) as int else DigitsValue(s)
  }

  lemma {:induction false} DecimalRoundTrip(n: nat)
    ensures DigitsValue(NatToDecimal(n)) == n
  {
    if n >= 10 {
      var s := NatToDecimal(n);
      DecimalRoundTrip(n / 10);
      assert s[..|s| - 1] == NatToDecimal(n / 10);
    }
  }

  /** What Atoi reads: an optional '-' followed by at least one digit. */
  predicate Signed(s: string)
  {
    s != [] && if s[0] == '-' then AllDigits(s[1..]) else AllDigits(s)
  }

  /** Itoa loses nothing: Atoi reads every integer back. */
  lemma ItoaRoundTrip(i: int)
    ensures Signed(Itoa(i)) && Atoi(Itoa(i)) == i
  {
    var s := Itoa(i);
    if i < 0 {
      var d := NatToDecimal(-i);
      assert s == "-" + d;
      assert s[0] == '-' && s[1..] == d;
      DecimalRoundTrip(-i);
      assert Atoi(s) == 0 - DigitsValue(d) as int;
    } else {
      var d := NatToDecimal(i);
      assert s == d && '0' <= d[0] <= '9';
      DecimalRoundTrip(i);
      assert Atoi(s) == DigitsValue(d);
    }
  }

}
