/**
 * The parts of Go's `net/url` the forwarding client relies on: the textual form
 * of a URL (`URL.String`) and the query encoding of `url.Values.Encode`.
 * Percent-escaping (`QueryEscape`) is library behaviour and is a parameter
 * here; `QueryRoundTrip` says what a reader of the query gets back when the
 * escaping is undone by the matching unescape.
 */
module Urls {
  import opened StringOrder

  /**
   * The fields of `url.URL` this model uses, with `path` and `fragment`
   * already in escaped form.
   */
  datatype Url = Url(scheme: string, host: string, path: string,
                     forceQuery: bool, rawQuery: string, fragment: string)

  /**
   * `URL.String` for a URL without opaque part or user information: it starts
   * with the scheme and `:`, and ends with `#` and the fragment, or, without a
   * fragment, with `?` and the raw query when there is one.
   */
  function UrlString(u: Url): (s: string)
    ensures u.scheme != "" ==> |s| > |u.scheme| && s[..|u.scheme| + 1] == u.scheme + ":"
    ensures u.fragment != "" ==> |s| > |u.fragment| && s[|s| - |u.fragment| - 1..] == "#" + u.fragment
    ensures u.fragment == "" && (u.forceQuery || u.rawQuery != "") ==>
      |s| > |u.rawQuery| && s[|s| - |u.rawQuery| - 1..] == "?" + u.rawQuery
  {
    var head := if u.scheme != "" then u.scheme + ":" else "";
    var rest := (if u.scheme != "" || u.host != "" then (if u.host != "" || u.path != "" then "//" else "") + u.host else "")
      + (if u.path != "" && u.path[0] != '/' && u.host != "" then "/" else "")
      + u.path;
    var query := if u.forceQuery || u.rawQuery != "" then "?" + u.rawQuery else "";
    var fragment := if u.fragment != "" then "#" + u.fragment else "";
    Ends(head, rest, query, fragment);
    head + rest + query + fragment
  }

  /** A text made of four parts starts with the first and ends with the last, or the last two. */
  lemma Ends(a: string, b: string, c: string, d: string)
    ensures |a + b + c + d| == |a| + |b| + |c| + |d|
    ensures (a + b + c + d)[..|a|] == a
    ensures (a + b + c + d)[|a| + |b| + |c|..] == d
    ensures (a + b + c + d)[|a| + |b|..] == c + d
  {
    var s := a + b + c + d;
    assert s == a + (b + c + d);
    assert s == (a + b) + (c + d);
  }

  /**
   * With no fragment, the text of a URL is its text without any query followed
   * by `?` and the raw query, or by nothing when the raw query is empty and no
   * `?` was forced: whatever query the URL carried before has no trace.
   */
  lemma UrlStringQuery(u: Url, q: string)
    requires u.fragment == ""
    ensures UrlString(u.(rawQuery := q)) ==
      UrlString(u.(rawQuery := "", forceQuery := false)) + (if u.forceQuery || q != "" then "?" + q else "")
  {
  }

  /** The text of a URL with a scheme and a host and no fragment. */
  lemma UrlStringWithHost(u: Url)
    requires u.scheme != "" && u.host != "" && u.fragment == ""
    ensures UrlString(u) ==
      u.scheme + "://" + u.host + (if u.path != "" && u.path[0] != '/' then "/" else "") + u.path
      + (if u.forceQuery || u.rawQuery != "" then "?" + u.rawQuery else "")
  {
    assert u.scheme + ":" + ("//" + u.host) == u.scheme + "://" + u.host;
  }

  /** `k=v` for each value of one key, in the order of the values. */
  function KeyPairs(ek: string, vs: seq<string>, escape: string -> string): (r: seq<string>)
    ensures |r| == |vs|
    ensures forall i :: 0 <= i < |vs| ==> r[i] == ek + "=" + escape(vs[i])
  {
    seq(|vs|, i requires 0 <= i < |vs| => ek + "=" + escape(vs[i]))
  }

  /** The pairs of the given keys, key by key. */
  function Pairs(keys: seq<string>, q: map<string, seq<string>>, escape: string -> string): (r: seq<string>)
    requires forall i :: 0 <= i < |keys| ==> keys[i] in q
    ensures r == [] <==> forall i :: 0 <= i < |keys| ==> q[keys[i]] == []
    decreases |keys|
  {
    if keys == [] then []
    else KeyPairs(escape(keys[0]), q[keys[0]], escape) + Pairs(keys[1..], q, escape)
  }

  /** The parts separated by `sep`. */
  function Join(parts: seq<string>, sep: char): string
    decreases |parts|
  {
    if parts == [] then ""
    else if |parts| == 1 then parts[0]
    else parts[0] + [sep] + Join(parts[1..], sep)
  }

  /**
   * `url.Values(q).Encode()`: the keys in sorted order, each value of a key as
   * its own `key=value` pair in list order, all joined by `&`.
   */
  function EncodeQuery(q: map<string, seq<string>>, escape: string -> string): (s: string)
    ensures s == "" <==> forall k :: k in q ==> q[k] == []
  {
    var keys := SortedKeys(q.Keys);
    var ps := Pairs(keys, q, escape);
    PairsNonEmpty(keys, q, escape);
    JoinEmpty(ps, '&');
    AllListedEmpty(keys, q);
    Join(ps, '&')
  }

  lemma {:induction false} JoinEmpty(parts: seq<string>, sep: char)
    requires forall i :: 0 <= i < |parts| ==> parts[i] != ""
    ensures Join(parts, sep) == "" <==> parts == []
    decreases |parts|
  {
    if |parts| > 1 {
      JoinEmpty(parts[1..], sep);
    }
  }

  /** Over a list of exactly the map's keys, "every listed key is empty" means every key is. */
  lemma AllListedEmpty(keys: seq<string>, q: map<string, seq<string>>)
    requires forall i :: 0 <= i < |keys| ==> keys[i] in q
    requires forall k :: k in q ==> k in keys
    ensures (forall i :: 0 <= i < |keys| ==> q[keys[i]] == []) <==> (forall k :: k in q ==> q[k] == [])
  {
    if forall i :: 0 <= i < |keys| ==> q[keys[i]] == [] {
      forall k | k in q ensures q[k] == [] {
        var i :| 0 <= i < |keys| && keys[i] == k;
      }
    }
  }

  lemma {:induction false} PairsNonEmpty(keys: seq<string>, q: map<string, seq<string>>, escape: string -> string)
    requires forall i :: 0 <= i < |keys| ==> keys[i] in q
    ensures forall i :: 0 <= i < |Pairs(keys, q, escape)| ==> Pairs(keys, q, escape)[i] != ""
    decreases |keys|
  {
    if keys != [] {
      PairsNonEmpty(keys[1..], q, escape);
      var r := Pairs(keys, q, escape);
      var head := KeyPairs(escape(keys[0]), q[keys[0]], escape);
      forall i | 0 <= i < |r| ensures r[i] != "" {
        if i < |head| {
          assert '=' in r[i];
        } else {
          assert r[i] == Pairs(keys[1..], q, escape)[i - |head|];
        }
      }
    }
  }

  /** The example of a key with two values, with escaping that changes nothing. */
  lemma EncodeTwoValues()
    ensures EncodeQuery(map["a" := ["1", "2"]], s => s) == "a=1&a=2"
  {
    var q := map["a" := ["1", "2"]];
    assert q.Keys == {"a"};
    var keys := SortedKeys(q.Keys);
    assert keys == ["a"];
    var ps := KeyPairs("a", ["1", "2"], s => s);
    assert ps[0] == "a" + "=" + "1" == "a=1";
    assert ps[1] == "a" + "=" + "2" == "a=2";
    assert ps == ["a=1", "a=2"];
    assert Pairs(keys, q, s => s) == ["a=1", "a=2"];
  }

  // --- Reading the query back, as `url.ParseQuery` does -----------------------

  /** `strings.Split(s, sep)` (never empty: splitting "" gives [""]). */
  function Split(s: string, sep: char): (r: seq<string>)
    ensures |r| > 0
    decreases |s|
  {
    if s == [] then [""]
    else if s[0] == sep then [""] + Split(s[1..], sep)
    else var rest := Split(s[1..], sep); [[s[0]] + rest[0]] + rest[1..]
  }

  /** `strings.Cut(s, "=")`: the text before the first `=` and after it. */
  function CutEquals(s: string): (string, string)
    decreases |s|
  {
    if s == [] then ("", "")
    else if s[0] == '=' then ("", s[1..])
    else var (k, v) := CutEquals(s[1..]); ([s[0]] + k, v)
  }

  /** Adds one `key=value` segment to the values read so far; empty segments are skipped. */
  function AddSegment(m: map<string, seq<string>>, seg: string, unescape: string -> string): map<string, seq<string>> {
    if seg == "" then m
    else
      var (k, v) := CutEquals(seg);
      var key := unescape(k);
      m[key := (if key in m then m[key] else []) + [unescape(v)]]
  }

  function AddSegments(m: map<string, seq<string>>, segs: seq<string>, unescape: string -> string): map<string, seq<string>>
    decreases |segs|
  {
    if segs == [] then m else AddSegments(AddSegment(m, segs[0], unescape), segs[1..], unescape)
  }

  /** `url.ParseQuery` of a query string without `;` or malformed escapes. */
  function ParseQuery(s: string, unescape: string -> string): map<string, seq<string>> {
    if s == "" then map[] else AddSegments(map[], Split(s, '&'), unescape)
  }

  /** Escaping that `unescape` undoes and that never produces `&` or `=`, as `QueryEscape`. */
  ghost predicate EscapePair(escape: string -> string, unescape: string -> string) {
    forall s :: unescape(escape(s)) == s && '&' !in escape(s) && '=' !in escape(s)
  }

  /** Only keys that have values: `Encode` writes nothing for an empty list. */
  ghost function WithValues(q: map<string, seq<string>>): map<string, seq<string>> {
    map k | k in q && q[k] != [] :: q[k]
  }

  lemma {:induction false} SplitJoin(parts: seq<string>, sep: char)
    requires parts != []
    requires forall i :: 0 <= i < |parts| ==> sep !in parts[i]
    ensures Split(Join(parts, sep), sep) == parts
    decreases |parts|
  {
    if |parts| == 1 {
      SplitNoSep(parts[0], sep);
    } else {
      SplitJoin(parts[1..], sep);
      SplitPrefix(parts[0], Join(parts[1..], sep), sep);
      assert Join(parts, sep) == parts[0] + [sep] + Join(parts[1..], sep);
      assert parts == [parts[0]] + parts[1..];
    }
  }

  lemma {:induction false} SplitNoSep(s: string, sep: char)
    requires sep !in s
    ensures Split(s, sep) == [s]
    decreases |s|
  {
    if s != [] {
      SplitNoSep(s[1..], sep);
      assert s == [s[0]] + s[1..];
    }
  }

  /** A separator-free prefix followed by the separator splits off as the first part. */
  lemma {:induction false} SplitPrefix(a: string, rest: string, sep: char)
    requires sep !in a
    ensures Split(a + [sep] + rest, sep) == [a] + Split(rest, sep)
    decreases |a|
  {
    if a == [] {
      assert a + [sep] + rest == [sep] + rest;
      assert ([sep] + rest)[1..] == rest;
    } else {
      SplitPrefix(a[1..], rest, sep);
      assert (a + [sep] + rest)[1..] == a[1..] + [sep] + rest;
      assert a == [a[0]] + a[1..];
    }
  }

  lemma {:induction false} CutPair(k: string, v: string)
    requires '=' !in k
    ensures CutEquals(k + "=" + v) == (k, v)
    decreases |k|
  {
    if k == [] {
      assert k + "=" + v == ['='] + v;
      assert (['='] + v)[1..] == v;
    } else {
      CutPair(k[1..], v);
      assert (k + "=" + v)[1..] == k[1..] + "=" + v;
      assert k == [k[0]] + k[1..];
    }
  }

  lemma {:induction false} AddSegmentsAppend(m: map<string, seq<string>>, a: seq<string>, b: seq<string>, unescape: string -> string)
    ensures AddSegments(m, a + b, unescape) == AddSegments(AddSegments(m, a, unescape), b, unescape)
    decreases |a|
  {
    if a == [] {
      assert a + b == b;
    } else {
      assert (a + b)[0] == a[0] && (a + b)[1..] == a[1..] + b;
      AddSegmentsAppend(AddSegment(m, a[0], unescape), a[1..], b, unescape);
    }
  }

  /** Reading back one escaped pair appends its value to its key. */
  lemma ReadOnePair(m: map<string, seq<string>>, k: string, v: string,
                    escape: string -> string, unescape: string -> string)
    requires EscapePair(escape, unescape)
    ensures AddSegment(m, escape(k) + "=" + escape(v), unescape) == m[k := (if k in m then m[k] else []) + [v]]
  {
    var p := escape(k) + "=" + escape(v);
    assert '=' !in escape(k);
    CutPair(escape(k), escape(v));
    assert p != "";
    assert unescape(escape(k)) == k && unescape(escape(v)) == v;
  }

  /** One more value read for `k` after the values `init`. */
  lemma AppendLast(m: map<string, seq<string>>, k: string, init: seq<string>, last: string)
    ensures var prev := if k in m then m[k] else [];
      var m1 := if init == [] then m else m[k := prev + init];
      m1[k := (if k in m1 then m1[k] else []) + [last]] == m[k := prev + (init + [last])]
  {
    var prev := if k in m then m[k] else [];
    if init == [] {
      assert init + [last] == [last];
    } else {
      assert (prev + init) + [last] == prev + (init + [last]);
    }
  }

  /** Reading back the pairs of one key appends its values, in order, to what that key had. */
  lemma {:induction false} AddKeyPairs(m: map<string, seq<string>>, k: string, vs: seq<string>,
                                       escape: string -> string, unescape: string -> string)
    requires EscapePair(escape, unescape)
    ensures AddSegments(m, KeyPairs(escape(k), vs, escape), unescape) ==
      if vs == [] then m else m[k := (if k in m then m[k] else []) + vs]
    decreases |vs|
  {
    if vs == [] {
      assert KeyPairs(escape(k), vs, escape) == [];
    } else {
      var ps := KeyPairs(escape(k), vs, escape);
      var init := vs[..|vs| - 1];
      var last := vs[|vs| - 1];
      var p := ps[|vs| - 1];
      assert p == escape(k) + "=" + escape(last);
      assert ps == KeyPairs(escape(k), init, escape) + [p];
      AddSegmentsAppend(m, KeyPairs(escape(k), init, escape), [p], unescape);
      AddKeyPairs(m, k, init, escape, unescape);
      var m1 := AddSegments(m, KeyPairs(escape(k), init, escape), unescape);
      assert AddSegments(m1, [p], unescape) == AddSegment(m1, p, unescape);
      ReadOnePair(m1, k, last, escape, unescape);
      assert vs == init + [last];
      var prev := if k in m then m[k] else [];
      assert m1 == if init == [] then m else m[k := prev + init];
      AppendLast(m, k, init, last);
    }
  }

  /** The keys among `keys` that have values, each with its values. */
  function Collected(keys: seq<string>, q: map<string, seq<string>>): (r: map<string, seq<string>>)
    requires forall i :: 0 <= i < |keys| ==> keys[i] in q
    ensures forall k :: k in r <==> k in keys && q[k] != []
    ensures forall k :: k in r ==> r[k] == q[k]
    decreases |keys|
  {
    if keys == [] then map[]
    else if q[keys[0]] == [] then Collected(keys[1..], q)
    else Collected(keys[1..], q)[keys[0] := q[keys[0]]]
  }

  /** The keys after the first are still fresh, distinct and not the first one. */
  lemma TailKeys(m: map<string, seq<string>>, keys: seq<string>, q: map<string, seq<string>>,
                 m': map<string, seq<string>>)
    requires keys != []
    requires forall i :: 0 <= i < |keys| ==> keys[i] in q && keys[i] !in m
    requires forall i, j :: 0 <= i < j < |keys| ==> keys[i] != keys[j]
    requires m'.Keys <= m.Keys + {keys[0]}
    ensures forall i :: 0 <= i < |keys[1..]| ==> keys[1..][i] in q && keys[1..][i] !in m'
    ensures forall i, j :: 0 <= i < j < |keys[1..]| ==> keys[1..][i] != keys[1..][j]
    ensures keys[0] !in keys[1..]
  {
    var rest := keys[1..];
    forall i | 0 <= i < |rest| ensures rest[i] in q && rest[i] !in m' && rest[i] != keys[0] {
      assert rest[i] == keys[i + 1];
    }
    forall i, j | 0 <= i < j < |rest| ensures rest[i] != rest[j] {
      assert rest[i] == keys[i + 1] && rest[j] == keys[j + 1];
    }
  }

  lemma {:induction false} AddPairs(m: map<string, seq<string>>, keys: seq<string>, q: map<string, seq<string>>,
                                    escape: string -> string, unescape: string -> string)
    requires EscapePair(escape, unescape)
    requires forall i :: 0 <= i < |keys| ==> keys[i] in q && keys[i] !in m
    requires forall i, j :: 0 <= i < j < |keys| ==> keys[i] != keys[j]
    ensures AddSegments(m, Pairs(keys, q, escape), unescape) == m + Collected(keys, q)
    decreases |keys|
  {
    if keys == [] {
      assert Pairs(keys, q, escape) == [];
      assert m + map[] == m;
    } else {
      var k := keys[0];
      var rest := keys[1..];
      var head := KeyPairs(escape(k), q[k], escape);
      var tail := Pairs(rest, q, escape);
      assert Pairs(keys, q, escape) == head + tail;
      AddSegmentsAppend(m, head, tail, unescape);
      AddKeyPairs(m, k, q[k], escape, unescape);
      var m' := if q[k] == [] then m else m[k := q[k]];
      assert k !in m;
      assert [] + q[k] == q[k];
      assert AddSegments(m, head, unescape) == m';
      TailKeys(m, keys, q, m');
      AddPairs(m', rest, q, escape, unescape);
      var c := Collected(rest, q);
      if q[k] != [] {
        assert Collected(keys, q) == c[k := q[k]];
        UpdateUnion(m, c, k, q[k]);
      }
    }
  }

  lemma EmptyUnion<K, V>(c: map<K, V>)
    ensures map[] + c == c
  {
  }

  lemma SortedDistinct(keys: seq<string>)
    requires StrictlySorted(keys)
    ensures forall i, j :: 0 <= i < j < |keys| ==> keys[i] != keys[j]
  {
  }

  lemma UpdateUnion<K, V>(m: map<K, V>, c: map<K, V>, k: K, v: V)
    requires k !in c
    ensures m[k := v] + c == m + c[k := v]
  {
  }

  /** Parsing joined segments reads each segment once, from left to right. */
  lemma ParseJoined(ps: seq<string>, unescape: string -> string)
    requires forall i :: 0 <= i < |ps| ==> ps[i] != "" && '&' !in ps[i]
    ensures ParseQuery(Join(ps, '&'), unescape) == AddSegments(map[], ps, unescape)
  {
    JoinEmpty(ps, '&');
    if ps != [] {
      SplitJoin(ps, '&');
    }
  }

  /** Collecting over a list of exactly the map's keys keeps the keys that have values. */
  lemma CollectedAll(keys: seq<string>, q: map<string, seq<string>>)
    requires forall i :: 0 <= i < |keys| ==> keys[i] in q
    requires forall k :: k in q ==> k in keys
    ensures Collected(keys, q) == WithValues(q)
  {
    var c, w := Collected(keys, q), WithValues(q);
    assert c.Keys == w.Keys;
  }

  lemma CollectedSorted(q: map<string, seq<string>>)
    ensures Collected(SortedKeys(q.Keys), q) == WithValues(q)
  {
    var keys := SortedKeys(q.Keys);
    CollectedAll(keys, q);
  }

  /** Reading the pairs of every key in sorted order collects each key that has values. */
  lemma PairsReadBack(q: map<string, seq<string>>, escape: string -> string, unescape: string -> string)
    requires EscapePair(escape, unescape)
    ensures AddSegments(map[], Pairs(SortedKeys(q.Keys), q, escape), unescape) == WithValues(q)
  {
    var keys := SortedKeys(q.Keys);
    SortedDistinct(keys);
    AddPairs(map[], keys, q, escape, unescape);
    EmptyUnion(Collected(keys, q));
    CollectedSorted(q);
  }

  /** Every pair is non-empty and free of `&`, so splitting on `&` recovers the pairs. */
  lemma PairsSeparable(q: map<string, seq<string>>, escape: string -> string, unescape: string -> string)
    requires EscapePair(escape, unescape)
    ensures var ps := Pairs(SortedKeys(q.Keys), q, escape);
      forall i :: 0 <= i < |ps| ==> ps[i] != "" && '&' !in ps[i]
  {
    var keys := SortedKeys(q.Keys);
    var ps := Pairs(keys, q, escape);
    PairsNonEmpty(keys, q, escape);
    forall i | 0 <= i < |ps| ensures '&' !in ps[i] {
      PairNoAmpersand(keys, q, escape, unescape, i);
    }
  }

  /**
   * A reader of the encoded query gets the event's query back, except that keys
   * whose list of values is empty disappear.
   */
  lemma QueryRoundTrip(q: map<string, seq<string>>, escape: string -> string, unescape: string -> string)
    requires EscapePair(escape, unescape)
    ensures ParseQuery(EncodeQuery(q, escape), unescape) == WithValues(q)
  {
    PairsReadBack(q, escape, unescape);
    PairsSeparable(q, escape, unescape);
    ParseJoined(Pairs(SortedKeys(q.Keys), q, escape), unescape);
  }

  lemma {:induction false} PairNoAmpersand(keys: seq<string>, q: map<string, seq<string>>,
                                           escape: string -> string, unescape: string -> string, i: nat)
    requires EscapePair(escape, unescape)
    requires forall j :: 0 <= j < |keys| ==> keys[j] in q
    requires i < |Pairs(keys, q, escape)|
    ensures '&' !in Pairs(keys, q, escape)[i]
    decreases |keys|
  {
    var head := KeyPairs(escape(keys[0]), q[keys[0]], escape);
    if i < |head| {
      var v := q[keys[0]][i];
      assert head[i] == escape(keys[0]) + "=" + escape(v);
      assert '&' !in escape(keys[0]) && '&' !in escape(v);
    } else {
      PairNoAmpersand(keys[1..], q, escape, unescape, i - |head|);
    }
  }
}
