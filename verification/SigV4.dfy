/** The canonical query string of an AWS Signature Version 4 request. */
module SigV4 {
  import opened ByteStrings
  import opened PercentCoding
  import opened Sorting

  datatype Pair = Pair(key: ByteString, value: ByteString)

  const AMPERSAND: byte := 0x26
  const EQUALS: byte := 0x3D

  const SIGNATURE_KEY: ByteString := Ascii("X-Amz-Signature")

  // ----- Reading a query -----

  /** strings.Split(s, "&") */
  function Split(s: ByteString): (tokens: seq<ByteString>)
    ensures tokens != []
  {
    var i := Index(s, [AMPERSAND]);
    if i < 0 then [s]
    else
      assert OccursAt(s, [AMPERSAND], i);
      [s[..i]] + Split(s[i + 1..])
  }

  /** strings.Cut(token, "="), without an '=' the value is empty. */
  function Cut(token: ByteString): Pair {
    var i := Index(token, [EQUALS]);
    if i < 0 then Pair(token, [])
    else
      assert OccursAt(token, [EQUALS], i);
      Pair(token[..i], token[i + 1..])
  }

  /** The key ends before the first '='; a token without one is all key. */
  lemma CutMeaning(token: ByteString)
    ensures EQUALS !in Cut(token).key
    ensures if EQUALS in token then Cut(token).key + [EQUALS] + Cut(token).value == token
            else Cut(token) == Pair(token, [])
  {
    hide Index;
    FirstByte(token, EQUALS);
  }

  function CutAll(tokens: seq<ByteString>): (ps: seq<Pair>)
    ensures |ps| == |tokens|
  {
    seq(|tokens|, i requires 0 <= i < |tokens| => Cut(tokens[i]))
  }

  /** The pairs of a raw query, still percent-encoded. */
  function RawPairs(raw: ByteString): seq<Pair> {
    if raw == [] then [] else CutAll(Split(raw))
  }

  function DecodePair(p: Pair): Pair {
    Pair(Decode(p.key), Decode(p.value))
  }

  function EncodePair(p: Pair): Pair {
    Pair(Encode(p.key, true), Encode(p.value, true))
  }

  function DecodeAll(ps: seq<Pair>): (r: seq<Pair>)
    ensures |r| == |ps|
  {
    seq(|ps|, i requires 0 <= i < |ps| => DecodePair(ps[i]))
  }

  function EncodeAll(ps: seq<Pair>): (r: seq<Pair>)
    ensures |r| == |ps|
  {
    seq(|ps|, i requires 0 <= i < |ps| => EncodePair(ps[i]))
  }

  function WithoutSignature(ps: seq<Pair>): seq<Pair> {
    if ps == [] then []
    else
      var last := ps[|ps| - 1];
      WithoutSignature(ps[..|ps| - 1]) + (if last.key == SIGNATURE_KEY then [] else [last])
  }

  /** Exactly the signature's pairs go. */
  lemma {:induction false} WithoutSignatureCount(ps: seq<Pair>, p: Pair)
    ensures multiset(WithoutSignature(ps))[p] == if p.key == Ascii("X-Amz-Signature") then 0 else multiset(ps)[p]
  {
    if ps != [] {
      WithoutSignatureCount(ps[..|ps| - 1], p);
      assert ps == ps[..|ps| - 1] + [ps[|ps| - 1]];
    }
  }

  /** What a query says: its decoded pairs, but for the signature when that is excluded. */
  function QueryPairs(raw: ByteString, exclude: bool): seq<Pair> {
    var ps := DecodeAll(RawPairs(raw));
    if exclude then WithoutSignature(ps) else ps
  }

  // ----- Sorting -----

  predicate Less(p: Pair, q: Pair) {
    if p.key == q.key then Lt(p.value, q.value) else Lt(p.key, q.key)
  }

  lemma LessIsTotal(p: Pair, q: Pair)
    ensures Less(p, q) || p == q || Less(q, p)
  {
    LtTotal(p.key, q.key);
    LtTotal(p.value, q.value);
  }

  lemma LessIsStrict(p: Pair, q: Pair)
    requires Less(p, q)
    ensures !Less(q, p) && p != q
  {
    LtIrreflexive(p.key);
    LtIrreflexive(p.value);
    if p.key == q.key {
      if Lt(q.value, p.value) {
        LtTransitive(p.value, q.value, p.value);
      }
    } else if Lt(q.key, p.key) {
      LtTransitive(p.key, q.key, p.key);
    }
  }

  lemma LessIsTransitive(p: Pair, q: Pair, r: Pair)
    requires Less(p, q) && Less(q, r)
    ensures Less(p, r)
  {
    hide Lt;
    LessIsStrict(p, q);
    LessIsStrict(q, r);
    if p.key == q.key == r.key {
      LtTransitive(p.value, q.value, r.value);
    } else if p.key != q.key && q.key != r.key {
      LtTransitive(p.key, q.key, r.key);
      if p.key == r.key {
        LtIrreflexive(p.key);
      }
    }
  }

  /** Not-less is transitive too, because the order is total. */
  lemma NotLessIsTransitive(p: Pair, q: Pair, r: Pair)
    requires !Less(q, p) && !Less(r, q)
    ensures !Less(r, p)
  {
    hide Less;
    LessIsTotal(p, q);
    LessIsTotal(q, r);
    if Less(p, q) && Less(q, r) {
      LessIsTransitive(p, q, r);
      LessIsStrict(p, r);
    }
  }

  lemma LessIsAnOrder()
    ensures IsOrder(Less) && IsTotal(Less)
  {
    forall p, q ensures Less(p, q) ==> !Less(q, p) {
      if Less(p, q) {
        LessIsStrict(p, q);
      }
    }
    forall p, q, r ensures !Less(q, p) && !Less(r, q) ==> !Less(r, p) {
      if !Less(q, p) && !Less(r, q) {
        NotLessIsTransitive(p, q, r);
      }
    }
    forall p, q ensures Less(p, q) || p == q || Less(q, p) {
      LessIsTotal(p, q);
    }
  }

  /** sort.Slice by key, then value. */
  function SortedPairs(ps: seq<Pair>): (r: seq<Pair>)
    ensures multiset(r) == multiset(ps)
    ensures IsSorted(r, Less)
  {
    LessIsAnOrder();
    Sort(ps, Less)
  }

  // ----- Writing the canonical query -----

  /** key + "=" + value */
  function Item(p: Pair): ByteString {
    p.key + [EQUALS] + p.value
  }

  function Items(ps: seq<Pair>): (ts: seq<ByteString>)
    ensures |ts| == |ps|
  {
    seq(|ps|, i requires 0 <= i < |ps| => Item(ps[i]))
  }

  /** strings.Join(tokens, "&") */
  function Join(tokens: seq<ByteString>): ByteString {
    if tokens == [] then []
    else if |tokens| == 1 then tokens[0]
    else tokens[0] + [AMPERSAND] + Join(tokens[1..])
  }

  /** The canonical query string: the query's pairs, encoded afresh, in order. */
  function Canonical(raw: ByteString, exclude: bool): ByteString {
    Join(Items(SortedPairs(EncodeAll(QueryPairs(raw, exclude)))))
  }

  lemma SignatureStays()
    ensures Encode(SIGNATURE_KEY, true) == SIGNATURE_KEY
  {
    hide Encode;
    UnreservedStays(SIGNATURE_KEY, true);
  }

  lemma SignatureTest(key: ByteString)
    ensures Encode(Decode(key), true) == SIGNATURE_KEY <==> Decode(key) == SIGNATURE_KEY
  {
    hide Encode, Decode;
    SignatureStays();
    if Encode(Decode(key), true) == SIGNATURE_KEY {
      EncodeIsInjective(Decode(key), SIGNATURE_KEY, true);
    }
  }

  function Kept(ps: seq<Pair>, exclude: bool): seq<Pair> {
    if exclude then WithoutSignature(ps) else ps
  }

  lemma KeepOneMore(tokens: seq<ByteString>, i: nat, exclude: bool)
    requires i < |tokens|
    ensures EncodeAll(Kept(DecodeAll(CutAll(tokens[..i + 1])), exclude))
         == EncodeAll(Kept(DecodeAll(CutAll(tokens[..i])), exclude))
            + (if exclude && Decode(Cut(tokens[i]).key) == SIGNATURE_KEY then []
               else [EncodePair(DecodePair(Cut(tokens[i])))])
  {
    hide Cut, EncodePair, Decode;
    var ps, qs := DecodeAll(CutAll(tokens[..i])), DecodeAll(CutAll(tokens[..i + 1]));
    assert qs[..i] == ps && qs[i] == DecodePair(Cut(tokens[i]));
  }

  /** canonicalQueryString */
  method CanonicalQueryString(raw: ByteString, exclude: bool) returns (r: ByteString)
    ensures r == Canonical(raw, exclude)
  {
    hide Cut, Encode, Decode, WithoutSignature, SortedPairs, Split, IsSorted;
    if raw == [] {
      NothingKept(exclude);
      return [];
    }
    var tokens := Split(raw);
    var pairs: seq<Pair> := [];
    NothingKept(exclude);
    for i := 0 to |tokens|
      invariant pairs == EncodeAll(Kept(DecodeAll(CutAll(tokens[..i])), exclude))
    {
      var cut := Cut(tokens[i]);
      KeepOneMore(tokens, i, exclude);
      SignatureTest(cut.key);
      var key := CanonicalQueryComponent(cut.key);
      if exclude && key == SIGNATURE_KEY {
        continue;
      }
      var value := CanonicalQueryComponent(cut.value);
      pairs := pairs + [Pair(key, value)];
    }
    assert tokens[..|tokens|] == tokens;
    assert pairs == EncodeAll(QueryPairs(raw, exclude));
    pairs := SortedPairs(pairs);
    var encoded: seq<ByteString> := [];
    for i := 0 to |pairs|
      invariant encoded == Items(pairs)[..i]
    {
      encoded := encoded + [pairs[i].key + [EQUALS] + pairs[i].value];
    }
    assert encoded == Items(pairs);
    r := Join(encoded);
  }

  lemma NothingKept(exclude: bool)
    ensures EncodeAll(Kept(DecodeAll(CutAll([])), exclude)) == []
    ensures Canonical([], exclude) == []
  {
    assert DecodeAll([]) == [];
    assert QueryPairs([], exclude) == [];
    assert EncodeAll([]) == [];
  }

  // ----- The canonical query reads back as the encoded pairs -----

  /** Encoded halves hold neither separator. */
  ghost predicate Clean(s: ByteString) {
    AMPERSAND !in s && EQUALS !in s
  }

  lemma EncodedIsClean(s: ByteString)
    ensures Clean(Encode(s, true))
  {
    EncodedBytes(s, true);
  }

  lemma ItemReadsBack(p: Pair)
    requires Clean(p.key) && Clean(p.value)
    ensures Cut(Item(p)) == p && AMPERSAND !in Item(p) && Item(p) != []
  {
    hide Index;
    IndexOfByte(p.key, EQUALS, p.value);
    var item := Item(p);
    assert item[..|p.key|] == p.key && item[|p.key| + 1..] == p.value;
  }

  lemma {:induction false} JoinReadsBack(tokens: seq<ByteString>)
    requires tokens != [] && forall i :: 0 <= i < |tokens| ==> AMPERSAND !in tokens[i]
    ensures Split(Join(tokens)) == tokens
  {
    hide Index;
    if |tokens| == 1 {
      NoIndexOfByte(tokens[0], AMPERSAND);
      assert tokens == [tokens[0]];
    } else {
      JoinReadsBack(tokens[1..]);
      SplitFirst(tokens[0], Join(tokens[1..]));
      assert tokens == [tokens[0]] + tokens[1..];
    }
  }

  /** Splitting loses nothing, and leaves no separator in a token. */
  lemma {:induction false} JoinUndoesSplit(s: ByteString)
    ensures Join(Split(s)) == s
    ensures forall i :: 0 <= i < |Split(s)| ==> AMPERSAND !in Split(s)[i]
    decreases |s|
  {
    FirstByte(s, AMPERSAND);
    SplitAtFirst(s);
    hide Index, Split, Join;
    var i := Index(s, [AMPERSAND]);
    if i < 0 {
      JoinOfOne(s);
    } else {
      JoinUndoesSplit(s[i + 1..]);
      JoinFirst(s[..i], Split(s[i + 1..]));
    }
  }

  lemma SplitAtFirst(s: ByteString)
    ensures var i := Index(s, [AMPERSAND]);
            i < |s| && Split(s) == if i < 0 then [s] else [s[..i]] + Split(s[i + 1..])
  {
    FirstByte(s, AMPERSAND);
    hide Index;
  }

  lemma JoinOfOne(s: ByteString)
    ensures Join([s]) == s
  {
  }

  lemma JoinFirst(token: ByteString, tokens: seq<ByteString>)
    requires tokens != []
    ensures Join([token] + tokens) == token + [AMPERSAND] + Join(tokens)
  {
    assert ([token] + tokens)[1..] == tokens;
  }

  lemma SplitFirst(token: ByteString, rest: ByteString)
    requires AMPERSAND !in token
    ensures Split(token + [AMPERSAND] + rest) == [token] + Split(rest)
  {
    hide Index;
    var s := token + [AMPERSAND] + rest;
    IndexOfByte(token, AMPERSAND, rest);
    assert s[..|token|] == token && s[|token| + 1..] == rest;
  }

  lemma JoinIsNonempty(tokens: seq<ByteString>)
    requires tokens != [] && tokens[0] != []
    ensures Join(tokens) != []
  {
  }

  lemma JoinedReadsBack(ps: seq<Pair>)
    requires forall i :: 0 <= i < |ps| ==> Clean(ps[i].key) && Clean(ps[i].value)
    ensures RawPairs(Join(Items(ps))) == ps
  {
    hide Join, Split, Cut, Item, Clean;
    var items := Items(ps);
    forall i | 0 <= i < |ps| ensures Cut(items[i]) == ps[i] && AMPERSAND !in items[i] && items[i] != [] {
      ItemReadsBack(ps[i]);
    }
    if ps == [] {
      JoinOfNothing(items);
    } else {
      JoinReadsBack(items);
      JoinIsNonempty(items);
    }
  }

  lemma JoinOfNothing(tokens: seq<ByteString>)
    requires tokens == []
    ensures Join(tokens) == []
  {
  }

  /** The sorted encoded pairs a canonical query is made of. */
  function CanonicalPairs(raw: ByteString, exclude: bool): seq<Pair> {
    SortedPairs(EncodeAll(QueryPairs(raw, exclude)))
  }

  lemma FromEncoded(ps: seq<Pair>, sorted: seq<Pair>, i: nat) returns (p: Pair)
    requires multiset(sorted) == multiset(EncodeAll(ps)) && i < |sorted|
    ensures p in ps && sorted[i] == EncodePair(p)
  {
    assert sorted[i] in multiset(EncodeAll(ps));
    var j :| 0 <= j < |EncodeAll(ps)| && EncodeAll(ps)[j] == sorted[i];
    p := ps[j];
  }

  lemma CanonicalReadsBack(raw: ByteString, exclude: bool)
    ensures RawPairs(Canonical(raw, exclude)) == CanonicalPairs(raw, exclude)
  {
    hide RawPairs, QueryPairs, SortedPairs, Encode, Items, Join, Clean, IsSorted;
    var ps := CanonicalPairs(raw, exclude);
    forall i | 0 <= i < |ps| ensures Clean(ps[i].key) && Clean(ps[i].value) {
      var p := FromEncoded(QueryPairs(raw, exclude), ps, i);
      EncodedIsClean(p.key);
      EncodedIsClean(p.value);
    }
    JoinedReadsBack(ps);
  }

  /** The pairs of a canonical query ascend by key, and by value under one key. */
  lemma CanonicalAscends(raw: ByteString, exclude: bool)
    ensures var ps := RawPairs(Canonical(raw, exclude));
            forall i, j :: 0 <= i < j < |ps| ==>
              Lt(ps[i].key, ps[j].key) || (ps[i].key == ps[j].key && !Lt(ps[j].value, ps[i].value))
  {
    hide RawPairs, Canonical, QueryPairs, EncodeAll, SortedPairs, Lt;
    CanonicalReadsBack(raw, exclude);
    var ps := CanonicalPairs(raw, exclude);
    forall i, j | 0 <= i < j < |ps|
      ensures Lt(ps[i].key, ps[j].key) || (ps[i].key == ps[j].key && !Lt(ps[j].value, ps[i].value))
    {
      assert !Less(ps[j], ps[i]);
      LtTotal(ps[i].key, ps[j].key);
    }
  }

  // ----- What a canonical query determines -----

  lemma EncodePairIsInjective(p: Pair, q: Pair)
    requires EncodePair(p) == EncodePair(q)
    ensures p == q
  {
    hide Encode;
    EncodeIsInjective(p.key, q.key, true);
    EncodeIsInjective(p.value, q.value, true);
  }

  /** Encoding keeps how often each pair occurs. */
  lemma {:induction false} EncodedCount(ps: seq<Pair>, p: Pair)
    ensures multiset(EncodeAll(ps))[EncodePair(p)] == multiset(ps)[p]
  {
    hide EncodePair;
    if ps == [] {
      assert EncodeAll(ps) == [];
    } else {
      var n := |ps| - 1;
      EncodedCount(ps[..n], p);
      assert ps == ps[..n] + [ps[n]];
      assert EncodeAll(ps) == EncodeAll(ps[..n]) + [EncodePair(ps[n])];
      if EncodePair(ps[n]) == EncodePair(p) {
        EncodePairIsInjective(ps[n], p);
      }
    }
  }

  lemma EncodedStranger(ps: seq<Pair>, e: Pair)
    requires e in EncodeAll(ps)
    ensures exists p :: p in ps && EncodePair(p) == e
  {
    hide EncodePair;
    var i :| 0 <= i < |EncodeAll(ps)| && EncodeAll(ps)[i] == e;
    assert ps[i] in ps && EncodePair(ps[i]) == e;
  }

  lemma SameEncodings(ps: seq<Pair>, qs: seq<Pair>)
    ensures multiset(EncodeAll(ps)) == multiset(EncodeAll(qs)) <==> multiset(ps) == multiset(qs)
  {
    hide EncodePair, EncodeAll;
    if multiset(EncodeAll(ps)) == multiset(EncodeAll(qs)) {
      forall p ensures multiset(ps)[p] == multiset(qs)[p] {
        EncodedCount(ps, p);
        EncodedCount(qs, p);
      }
      assert multiset(ps) == multiset(qs);
    }
    if multiset(ps) == multiset(qs) {
      forall e ensures multiset(EncodeAll(ps))[e] == multiset(EncodeAll(qs))[e] {
        EncodedEverywhere(ps, qs, e);
      }
      assert multiset(EncodeAll(ps)) == multiset(EncodeAll(qs));
    }
  }

  lemma EncodedEverywhere(ps: seq<Pair>, qs: seq<Pair>, e: Pair)
    requires multiset(ps) == multiset(qs)
    ensures multiset(EncodeAll(ps))[e] == multiset(EncodeAll(qs))[e]
  {
    hide EncodePair, EncodeAll;
    if e in EncodeAll(ps) || e in EncodeAll(qs) {
      var list := if e in EncodeAll(ps) then ps else qs;
      EncodedStranger(list, e);
      var p :| p in list && EncodePair(p) == e;
      EncodedCount(ps, p);
      EncodedCount(qs, p);
    }
  }

  /** Two raw queries have the same canonical string iff they say the same: the same decoded pairs, equally often, the
      signature aside when it is excluded. Token order and escape spelling never matter, and nothing else is
      conflated. */
  lemma SameCanonicalIff(raw: ByteString, raw': ByteString, exclude: bool)
    ensures Canonical(raw, exclude) == Canonical(raw', exclude)
       <==> multiset(QueryPairs(raw, exclude)) == multiset(QueryPairs(raw', exclude))
  {
    var ps, qs := QueryPairs(raw, exclude), QueryPairs(raw', exclude);
    hide RawPairs, QueryPairs, EncodeAll, IsSorted;
    SameEncodings(ps, qs);
    if Canonical(raw, exclude) == Canonical(raw', exclude) {
      CanonicalReadsBack(raw, exclude);
      CanonicalReadsBack(raw', exclude);
      assert multiset(SortedPairs(EncodeAll(ps))) == multiset(SortedPairs(EncodeAll(qs)));
    }
    if multiset(EncodeAll(ps)) == multiset(EncodeAll(qs)) {
      LessIsAnOrder();
      SortedIsUnique(SortedPairs(EncodeAll(ps)), SortedPairs(EncodeAll(qs)), Less);
    }
  }

  // ----- Canonicalising twice -----

  lemma {:induction false} NoSignatureLeft(ps: seq<Pair>)
    ensures forall p :: p in WithoutSignature(ps) ==> p.key != SIGNATURE_KEY
  {
    if ps != [] {
      NoSignatureLeft(ps[..|ps| - 1]);
    }
  }

  lemma {:induction false} NothingToRemove(ps: seq<Pair>)
    requires forall i :: 0 <= i < |ps| ==> ps[i].key != SIGNATURE_KEY
    ensures WithoutSignature(ps) == ps
  {
    if ps != [] {
      NothingToRemove(ps[..|ps| - 1]);
      assert ps == ps[..|ps| - 1] + [ps[|ps| - 1]];
    }
  }

  lemma CanonicalPairsAreEncoded(raw: ByteString, exclude: bool)
    ensures EncodeAll(DecodeAll(CanonicalPairs(raw, exclude))) == CanonicalPairs(raw, exclude)
  {
    hide SortedPairs, Encode, Decode, QueryPairs, IsSorted;
    var ps := CanonicalPairs(raw, exclude);
    var decoded := DecodeAll(ps);
    forall i | 0 <= i < |ps| ensures EncodePair(decoded[i]) == ps[i] {
      var p := FromEncoded(QueryPairs(raw, exclude), ps, i);
      DecodeUndoesEncode(p.key, true);
      DecodeUndoesEncode(p.value, true);
    }
  }

  /** A canonical query says what the query says, each pair as often. */
  lemma CanonicalSaysTheSame(raw: ByteString, exclude: bool)
    ensures multiset(DecodeAll(RawPairs(Canonical(raw, exclude)))) == multiset(QueryPairs(raw, exclude))
  {
    hide RawPairs, Canonical, QueryPairs, EncodeAll, DecodeAll, IsSorted;
    CanonicalReadsBack(raw, exclude);
    CanonicalPairsAreEncoded(raw, exclude);
    SameEncodings(DecodeAll(CanonicalPairs(raw, exclude)), QueryPairs(raw, exclude));
  }

  /** Canonicalising a canonical query changes nothing. */
  lemma CanonicalIsIdempotent(raw: ByteString, exclude: bool)
    ensures Canonical(Canonical(raw, exclude), exclude) == Canonical(raw, exclude)
  {
    hide SortedPairs, Encode, Decode, Items, Join, IsSorted, WithoutSignature, RawPairs;
    var ps := CanonicalPairs(raw, exclude);
    CanonicalReadsBack(raw, exclude);
    var decoded := DecodeAll(ps);
    forall i | 0 <= i < |ps|
      ensures EncodePair(decoded[i]) == ps[i] && (exclude ==> decoded[i].key != SIGNATURE_KEY)
    {
      var p := FromEncoded(QueryPairs(raw, exclude), ps, i);
      DecodeUndoesEncode(p.key, true);
      DecodeUndoesEncode(p.value, true);
      NoSignatureLeft(DecodeAll(RawPairs(raw)));
    }
    if exclude {
      NothingToRemove(decoded);
    }
    assert EncodeAll(decoded) == ps;
    LessIsAnOrder();
    SortedIsUnique(SortedPairs(ps), ps, Less);
  }
}
