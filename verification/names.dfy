/** The Name record (name.go:24-32) seen as a list of attribute-value pairs. */
module Names {
  import opened Prelude

  datatype Name = Name(country: seq<Bytes>,
                       organization: seq<Bytes>,
                       organizationalUnit: seq<Bytes>,
                       locality: seq<Bytes>,
                       province: seq<Bytes>,
                       commonName: Bytes)

  const EMPTY_NAME := Name([], [], [], [], [], [])

  datatype Attribute = C | ST | L | O | OU | CN

  datatype Pair = Pair(attribute: Attribute, value: Bytes)

  /** What both parsers do with one attribute: lists grow, the last common name stays. */
  function Put(n: Name, p: Pair): Name {
    match p.attribute
    case C => n.(country := n.country + [p.value])
    case ST => n.(province := n.province + [p.value])
    case L => n.(locality := n.locality + [p.value])
    case O => n.(organization := n.organization + [p.value])
    case OU => n.(organizationalUnit := n.organizationalUnit + [p.value])
    case CN => n.(commonName := p.value)
  }

  function PutAll(n: Name, pairs: seq<Pair>): Name
    decreases |pairs|
  {
    if pairs == [] then n else PutAll(Put(n, pairs[0]), pairs[1..])
  }

  function Pairs(a: Attribute, values: seq<Bytes>): (r: seq<Pair>)
    ensures |r| == |values|
    ensures forall i :: 0 <= i < |values| ==> r[i] == Pair(a, values[i])
  {
    seq(|values|, i requires 0 <= i < |values| => Pair(a, values[i]))
  }

  function CommonNamePair(n: Name): seq<Pair> {
    if n.commonName == [] then [] else [Pair(CN, n.commonName)]
  }

  /** C, ST, L, O, OU, CN: the order of the DER encoding (name.go:61-79). */
  function DerOrder(n: Name): seq<Pair> {
    Pairs(C, n.country) + Pairs(ST, n.province) + Pairs(L, n.locality)
    + Pairs(O, n.organization) + Pairs(OU, n.organizationalUnit) + CommonNamePair(n)
  }

  /** CN, OU, O, L, ST, C: the order of the text form (name.go:311-330). */
  function TextOrder(n: Name): seq<Pair> {
    CommonNamePair(n) + Pairs(OU, n.organizationalUnit) + Pairs(O, n.organization)
    + Pairs(L, n.locality) + Pairs(ST, n.province) + Pairs(C, n.country)
  }

  lemma {:induction false} PutAllConcat(n: Name, p: seq<Pair>, q: seq<Pair>)
    ensures PutAll(n, p + q) == PutAll(PutAll(n, p), q)
    decreases |p|
  {
    if p == [] {
      assert p + q == q;
    } else {
      assert (p + q)[1..] == p[1..] + q;
      PutAllConcat(Put(n, p[0]), p[1..], q);
    }
  }

  function AppendAll(n: Name, a: Attribute, values: seq<Bytes>): Name
    requires a != CN
  {
    match a
    case C => n.(country := n.country + values)
    case ST => n.(province := n.province + values)
    case L => n.(locality := n.locality + values)
    case O => n.(organization := n.organization + values)
    case OU => n.(organizationalUnit := n.organizationalUnit + values)
  }

  lemma {:induction false} PutAllPairs(n: Name, a: Attribute, values: seq<Bytes>)
    requires a != CN
    ensures PutAll(n, Pairs(a, values)) == AppendAll(n, a, values)
    decreases |values|
  {
    if values == [] {
      assert AppendAll(n, a, values) == n;
    } else {
      var n' := Put(n, Pair(a, values[0]));
      assert Pairs(a, values)[1..] == Pairs(a, values[1..]);
      PutAllPairs(n', a, values[1..]);
      assert [values[0]] + values[1..] == values;
      assert AppendAll(n', a, values[1..]) == AppendAll(n, a, values) by {
        AppendAllStep(n, a, values);
      }
    }
  }

  lemma AppendAllStep(n: Name, a: Attribute, values: seq<Bytes>)
    requires a != CN && |values| > 0
    ensures AppendAll(Put(n, Pair(a, values[0])), a, values[1..]) == AppendAll(n, a, values)
  {
    forall s: seq<Bytes>
      ensures s + [values[0]] + values[1..] == s + values
    {
      assert [values[0]] + values[1..] == values;
    }
  }

  /** Reading the pairs back in DER order rebuilds the name. */
  lemma DerOrderRebuilds(n: Name)
    ensures PutAll(EMPTY_NAME, DerOrder(n)) == n
  {
    var s5 := CommonNamePair(n);
    var c, st, l, o, ou := Pairs(C, n.country), Pairs(ST, n.province), Pairs(L, n.locality),
                           Pairs(O, n.organization), Pairs(OU, n.organizationalUnit);
    PutAllConcat(EMPTY_NAME, c + st + l + o + ou, s5);
    PutAllConcat(EMPTY_NAME, c + st + l + o, ou);
    PutAllConcat(EMPTY_NAME, c + st + l, o);
    PutAllConcat(EMPTY_NAME, c + st, l);
    PutAllConcat(EMPTY_NAME, c, st);
    PutAllPairs(EMPTY_NAME, C, n.country);
    var n1 := PutAll(EMPTY_NAME, c);
    PutAllPairs(n1, ST, n.province);
    var n2 := PutAll(n1, st);
    PutAllPairs(n2, L, n.locality);
    var n3 := PutAll(n2, l);
    PutAllPairs(n3, O, n.organization);
    var n4 := PutAll(n3, o);
    PutAllPairs(n4, OU, n.organizationalUnit);
    var n5 := PutAll(n4, ou);
    assert n5 == n.(commonName := []);
    if n.commonName != [] {
      assert s5[1..] == [];
      assert PutAll(n5, s5) == PutAll(Put(n5, s5[0]), []);
    }
  }

  /** Reading the pairs back in text order rebuilds the name. */
  lemma TextOrderRebuilds(n: Name)
    ensures PutAll(EMPTY_NAME, TextOrder(n)) == n
  {
    var cn := CommonNamePair(n);
    var c, st, l, o, ou := Pairs(C, n.country), Pairs(ST, n.province), Pairs(L, n.locality),
                           Pairs(O, n.organization), Pairs(OU, n.organizationalUnit);
    PutAllConcat(EMPTY_NAME, cn + ou + o + l + st, c);
    PutAllConcat(EMPTY_NAME, cn + ou + o + l, st);
    PutAllConcat(EMPTY_NAME, cn + ou + o, l);
    PutAllConcat(EMPTY_NAME, cn + ou, o);
    PutAllConcat(EMPTY_NAME, cn, ou);
    var n0 := PutAll(EMPTY_NAME, cn);
    if n.commonName != [] {
      assert cn[1..] == [];
      assert n0 == PutAll(Put(EMPTY_NAME, cn[0]), []);
    }
    assert n0 == EMPTY_NAME.(commonName := n.commonName);
    PutAllPairs(n0, OU, n.organizationalUnit);
    var n1 := PutAll(n0, ou);
    PutAllPairs(n1, O, n.organization);
    var n2 := PutAll(n1, o);
    PutAllPairs(n2, L, n.locality);
    var n3 := PutAll(n2, l);
    PutAllPairs(n3, ST, n.province);
    var n4 := PutAll(n3, st);
    PutAllPairs(n4, C, n.country);
  }
}
