/**
 * Serialisation of values for the shared cache tier, standing for
 * `cPickle.dumps`/`cPickle.loads`.  The byte format is this model's own: a
 * tag character per value, integers and lengths in decimal, composite values
 * closed by 'E' and the whole pickle closed by '.', the way a pickle ends in
 * its STOP opcode.  What the cache layer relies on, and what is proved here,
 * is that loading a dump gives back the value that was dumped.
 */
module Pickle {
  import opened Base
  import opened Values
  import opened Decimal

  /** The encoding of one value. */
  function Ser(v: Value): string {
    match v
    case Nil => "N"
    case Bool(b) => if b then "T" else "F"
    case Int(i) => "I" + IntToStr(i) + ";"
    case Str(s) => "S" + NatToStr(|s|) + ":" + s
    case Tuple(es) => "(" + SerItems(es) + "E"
    case List(es) => "[" + SerItems(es) + "E"
    case Dict(ps) => "{" + SerPairs(ps) + "E"
    case Entity(id, attrs) => "O" + IntToStr(id) + ";" + SerItems(attrs) + "E"
  }

  function SerItems(es: seq<Value>): string {
    if es == [] then "" else Ser(es[0]) + SerItems(es[1..])
  }

  /** The items of a dict, each as its key followed by its value. */
  function SerPairs(ps: seq<Item>): string {
    if ps == [] then "" else SerItem(ps[0]) + SerPairs(ps[1..])
  }

  function SerItem(it: Item): string {
    Ser(it.key) + Ser(it.val)
  }

  /** `cPickle.dumps(v)`. */
  function Dumps(v: Value): string {
    Ser(v) + "."
  }

  /** The text before the first `c` and the text after it. */
  function SplitAt(s: string, c: char): (r: Option<(string, string)>)
    ensures r.Some? ==> |r.value.1| < |s|
  {
    if s == [] then None
    else if s[0] == c then Some(([], s[1..]))
    else match SplitAt(s[1..], c)
      case None => None
      case Some((a, b)) => Some(([s[0]] + a, b))
  }

  /** The body of an 'I' opcode: decimal digits closed by ';'. */
  function DecodeInt(t: string): (r: Option<(Value, string)>)
    ensures r.Some? ==> |r.value.1| < |t|
  {
    match SplitAt(t, ';')
    case None => None
    case Some((digits, rest)) =>
      match ParseInt(digits)
      case None => None
      case Some(i) => Some((Int(i), rest))
  }

  /** The body of an 'S' opcode: the length in decimal, ':', then that many characters. */
  function DecodeStr(t: string): (r: Option<(Value, string)>)
    ensures r.Some? ==> |r.value.1| < |t|
  {
    match SplitAt(t, ':')
    case None => None
    case Some((len, rest)) =>
      match ParseNat(len)
      case None => None
      case Some(n) => if n <= |rest| then Some((Str(rest[..n]), rest[n..])) else None
  }

  /** The body of an 'O' opcode: the id in decimal, ';', then the attributes. */
  function DecodeEntity(t: string): (r: Option<(Value, string)>)
    ensures r.Some? ==> |r.value.1| < |t|
    decreases |t|, 0
  {
    match SplitAt(t, ';')
    case None => None
    case Some((digits, rest)) =>
      match ParseInt(digits)
      case None => None
      case Some(id) =>
        match DecodeItems(rest)
        case None => None
        case Some((es, rest')) => Some((Entity(id, es), rest'))
  }

  /** Decodes one value from the front of `s`, with the text that follows it. */
  function DecodeValue(s: string): (r: Option<(Value, string)>)
    ensures r.Some? ==> |r.value.1| < |s|
    decreases |s|, 1
  {
    if s == [] then None
    else
      var tag, t := s[0], s[1..];
      if tag == 'N' then Some((Nil, t))
      else if tag == 'T' then Some((Bool(true), t))
      else if tag == 'F' then Some((Bool(false), t))
      else if tag == 'I' then DecodeInt(t)
      else if tag == 'S' then DecodeStr(t)
      else if tag == '(' then
        match DecodeItems(t)
        case None => None
        case Some((es, rest)) => Some((Tuple(es), rest))
      else if tag == '[' then
        match DecodeItems(t)
        case None => None
        case Some((es, rest)) => Some((List(es), rest))
      else if tag == '{' then
        match DecodePairs(t)
        case None => None
        case Some((ps, rest)) => Some((Dict(ps), rest))
      else if tag == 'O' then DecodeEntity(t)
      else None
  }

  /** Decodes key-value pairs up to and including the closing 'E' of a dict. */
  function DecodePairs(s: string): (r: Option<(seq<Item>, string)>)
    ensures r.Some? ==> |r.value.1| < |s|
    decreases |s|, 2
  {
    if s == [] then None
    else if s[0] == 'E' then Some(([], s[1..]))
    else match DecodeValue(s)
      case None => None
      case Some((k, rest)) =>
        match DecodeValue(rest)
        case None => None
        case Some((v, rest')) =>
          match DecodePairs(rest')
          case None => None
          case Some((ps, rest'')) => Some(([Item(k, v)] + ps, rest''))
  }

  /** Decodes values up to and including the closing 'E' of a composite value. */
  function DecodeItems(s: string): (r: Option<(seq<Value>, string)>)
    ensures r.Some? ==> |r.value.1| < |s|
    decreases |s|, 2
  {
    if s == [] then None
    else if s[0] == 'E' then Some(([], s[1..]))
    else match DecodeValue(s)
      case None => None
      case Some((v, rest)) =>
        match DecodeItems(rest)
        case None => None
        case Some((vs, rest')) => Some(([v] + vs, rest'))
  }

  /** `cPickle.loads(s)`: None where loading raises UnpicklingError; text after the STOP is ignored. */
  function Loads(s: string): Option<Value> {
    match DecodeValue(s)
    case Some((v, rest)) => if rest != [] && rest[0] == '.' then Some(v) else None
    case None => None
  }

  lemma {:induction false} SplitAtFirst(a: string, c: char, b: string)
    requires forall k :: 0 <= k < |a| ==> a[k] != c
    ensures SplitAt(a + [c] + b, c) == Some((a, b))
    decreases |a|
  {
    if a != [] {
      var s := a + [c] + b;
      assert s[0] == a[0] && s[1..] == a[1..] + [c] + b;
      SplitAtFirst(a[1..], c, b);
      assert [a[0]] + a[1..] == a;
    }
  }

  lemma {:induction false} SplitAtAbsent(a: string, c: char)
    requires forall k :: 0 <= k < |a| ==> a[k] != c
    ensures SplitAt(a, c) == None
    decreases |a|
  {
    if a != [] {
      SplitAtAbsent(a[1..], c);
    }
  }

  lemma {:induction false} SerNotClosing(v: Value)
    ensures Ser(v) != [] && Ser(v)[0] != 'E'
  {
  }

  lemma {:induction false} DecodeSerInt(i: int, rest: string)
    ensures DecodeValue(Ser(Int(i)) + rest) == Some((Int(i), rest))
  {
    var s := Ser(Int(i)) + rest;
    assert s[0] == 'I' && s[1..] == IntToStr(i) + [';'] + rest;
    SplitAtFirst(IntToStr(i), ';', rest);
    ParseIntRoundTrip(i);
    DecodeIntOf(s[1..], IntToStr(i), rest, i);
    DecodeIntTag(s);
  }

  lemma DecodeIntTag(s: string)
    requires s != [] && s[0] == 'I'
    ensures DecodeValue(s) == DecodeInt(s[1..])
  {
  }

  lemma DecodeIntOf(t: string, digits: string, rest: string, i: int)
    requires SplitAt(t, ';') == Some((digits, rest)) && ParseInt(digits) == Some(i)
    ensures DecodeInt(t) == Some((Int(i), rest))
  {
  }

  lemma {:induction false} DecodeSerStr(x: string, rest: string)
    ensures DecodeValue(Ser(Str(x)) + rest) == Some((Str(x), rest))
  {
    var s := Ser(Str(x)) + rest;
    assert s[0] == 'S' && s[1..] == NatToStr(|x|) + [':'] + (x + rest);
    SplitAtFirst(NatToStr(|x|), ':', x + rest);
    ParseNatRoundTrip(|x|);
    assert (x + rest)[..|x|] == x && (x + rest)[|x|..] == rest;
    assert DecodeStr(s[1..]) == Some((Str(x), rest));
  }

  lemma DecodeEntityTag(s: string)
    requires s != [] && s[0] == 'O'
    ensures DecodeValue(s) == DecodeEntity(s[1..])
  {
  }

  lemma EntityShape(a: string, b: string, rest: string)
    ensures "O" + a + ";" + b + "E" + rest == "O" + (a + [';'] + (b + "E" + rest))
  {
  }

  lemma {:induction false} DecodeSerEntity(id: int, b: string, attrs: seq<Value>, rest: string)
    requires DecodeItems(b + "E" + rest) == Some((attrs, rest))
    ensures DecodeValue("O" + IntToStr(id) + ";" + b + "E" + rest) == Some((Entity(id, attrs), rest))
  {
    var a := IntToStr(id);
    var body := b + "E" + rest;
    var t := a + [';'] + body;
    SplitAtFirst(a, ';', body);
    ParseIntRoundTrip(id);
    assert DecodeEntity(t) == Some((Entity(id, attrs), rest));
    var s := "O" + a + ";" + b + "E" + rest;
    EntityShape(a, b, rest);
    assert s[0] == 'O' && s[1..] == t;
    DecodeEntityTag(s);
  }

  /** Decoding the encoding of `v` gives back `v` and leaves what followed untouched. */
  lemma {:induction false} DecodeSer(v: Value, rest: string)
    ensures DecodeValue(Ser(v) + rest) == Some((v, rest))
    decreases v
  {
    match v
    case Nil =>
    case Bool(b) =>
    case Int(i) => DecodeSerInt(i, rest);
    case Str(x) => DecodeSerStr(x, rest);
    case Tuple(es) =>
      var s := Ser(v) + rest;
      assert s[0] == '(' && s[1..] == SerItems(es) + "E" + rest;
      DecodeSerItems(es, rest);
    case List(es) =>
      var s := Ser(v) + rest;
      assert s[0] == '[' && s[1..] == SerItems(es) + "E" + rest;
      DecodeSerItems(es, rest);
    case Dict(ps) =>
      var s := Ser(v) + rest;
      assert s[0] == '{' && s[1..] == SerPairs(ps) + "E" + rest;
      DecodeSerPairs(ps, rest);
    case Entity(id, attrs) =>
      DecodeSerItems(attrs, rest);
      DecodeSerEntity(id, SerItems(attrs), attrs, rest);
  }

  lemma {:induction false} DecodeSerPairs(ps: seq<Item>, rest: string)
    ensures DecodePairs(SerPairs(ps) + "E" + rest) == Some((ps, rest))
    decreases ps
  {
    if ps != [] {
      var tail := SerPairs(ps[1..]) + "E" + rest;
      assert SerPairs(ps) + "E" + rest == Ser(ps[0].key) + (Ser(ps[0].val) + tail);
      SerNotClosing(ps[0].key);
      DecodeSerItem(ps[0], tail);
      DecodeSerPairs(ps[1..], rest);
      assert [ps[0]] + ps[1..] == ps;
    }
  }

  lemma {:induction false} DecodeSerItem(it: Item, tail: string)
    ensures DecodeValue(Ser(it.key) + (Ser(it.val) + tail)) == Some((it.key, Ser(it.val) + tail))
    ensures DecodeValue(Ser(it.val) + tail) == Some((it.val, tail))
    decreases it
  {
    DecodeSer(it.key, Ser(it.val) + tail);
    DecodeSer(it.val, tail);
  }

  lemma {:induction false} DecodeSerItems(es: seq<Value>, rest: string)
    ensures DecodeItems(SerItems(es) + "E" + rest) == Some((es, rest))
    decreases es
  {
    if es != [] {
      var tail := SerItems(es[1..]) + "E" + rest;
      assert SerItems(es) + "E" + rest == Ser(es[0]) + tail;
      SerNotClosing(es[0]);
      DecodeSer(es[0], tail);
      DecodeSerItems(es[1..], rest);
      assert [es[0]] + es[1..] == es;
    }
  }

  /** `cPickle.loads(cPickle.dumps(v)) == v`. */
  lemma {:induction false} LoadsDumps(v: Value)
    ensures Loads(Dumps(v)) == Some(v)
  {
    DecodeSer(v, ".");
  }

  /** A pickle is never empty, so the cache layer reads it back as a truthy, non-None string. */
  lemma DumpsNonEmpty(v: Value)
    ensures Dumps(v) != []
  {
  }
}
