/** The stack-style typed codec of messages: values are pushed at the end of a body and popped from its end. */
module Codec {
  import opened Bytes

  /** What one `operator<<` writes: the object bytes of a fixed-size value, a string, or a vector. */
  datatype Value =
    | Fixed(bytes: seq<Byte>)
    | Text(chars: seq<Byte>)
    | Vector(items: seq<Value>)

  /** What one `operator>>` is asked to read. */
  datatype Shape =
    | FixedShape(width: nat)
    | TextShape
    | VectorShape(elem: Shape)

  predicate HasShape(v: Value, t: Shape)
    decreases t
  {
    match t
    case FixedShape(w) => v.Fixed? && |v.bytes| == w
    case TextShape => v.Text?
    case VectorShape(elem) => v.Vector? && forall x <- v.items :: HasShape(x, elem)
  }

  /** Every length in the value fits the 32-bit count that is written after the elements. */
  predicate Short(v: Value) {
    match v
    case Fixed(_) => true
    case Text(chars) => |chars| < U32_LIMIT
    case Vector(items) => |items| < U32_LIMIT && forall x <- items :: Short(x)
  }

  function Push(body: seq<Byte>, v: Value): seq<Byte>
    decreases v, 1
  {
    match v
    case Fixed(bytes) => body + bytes
    case Text(chars) => body + chars + LeBytes(|chars| % U32_LIMIT, 4)
    case Vector(items) => PushAll(body, items) + LeBytes(|items| % U32_LIMIT, 4)
  }

  function PushAll(body: seq<Byte>, vs: seq<Value>): seq<Byte>
    decreases vs, 0
  {
    if vs == [] then body else PushAll(Push(body, vs[0]), vs[1..])
  }

  /** `None` stands for a read below the start of the body, which the code does not check. */
  function Pop(body: seq<Byte>, t: Shape): Option<(seq<Byte>, Value)>
    decreases t, 0
  {
    match t
    case FixedShape(w) =>
      if |body| < w then None
      else Some((body[..|body| - w], Fixed(body[|body| - w..])))
    case TextShape =>
      if |body| < 4 then None
      else
        var rest := body[..|body| - 4];
        var n := LeValue(body[|body| - 4..]);
        if |rest| < n then None
        else Some((rest[..|rest| - n], Text(rest[|rest| - n..])))
    case VectorShape(elem) =>
      if |body| < 4 then None
      else
        match PopMany(body[..|body| - 4], elem, LeValue(body[|body| - 4..]))
        case None => None
        case Some((rest, items)) => Some((rest, Vector(items)))
  }

  /** Reads `n` elements, the last one first. */
  function PopMany(body: seq<Byte>, t: Shape, n: nat): (r: Option<(seq<Byte>, seq<Value>)>)
    ensures r.Some? ==> |r.value.1| == n
    decreases t, n + 1
  {
    if n == 0 then Some((body, []))
    else
      match Pop(body, t)
      case None => None
      case Some((rest, last)) =>
        match PopMany(rest, t, n - 1)
        case None => None
        case Some((bottom, init)) => Some((bottom, init + [last]))
  }

  /** Pops one value of each shape, the last shape first. */
  function PopAll(body: seq<Byte>, ts: seq<Shape>): Option<(seq<Byte>, seq<Value>)>
    decreases |ts|
  {
    if ts == [] then Some((body, []))
    else
      match Pop(body, ts[|ts| - 1])
      case None => None
      case Some((rest, last)) =>
        match PopAll(rest, ts[..|ts| - 1])
        case None => None
        case Some((bottom, init)) => Some((bottom, init + [last]))
  }

  lemma {:induction false} PushAllLast(body: seq<Byte>, vs: seq<Value>)
    requires vs != []
    ensures PushAll(body, vs) == Push(PushAll(body, vs[..|vs| - 1]), vs[|vs| - 1])
    decreases |vs|
  {
    if |vs| > 1 {
      PushAllLast(Push(body, vs[0]), vs[1..]);
      assert vs[1..][..|vs| - 2] == vs[..|vs| - 1][1..];
    } else {
      assert vs[..0] == [];
    }
  }

  /** Popping what was pushed gives the value back, and the body below it, exactly when every length in
      the value fits 32 bits.  A longer vector or string never comes back, whatever lies below it. */
  lemma {:induction false} RoundTrip(body: seq<Byte>, v: Value, t: Shape)
    requires HasShape(v, t)
    ensures Short(v) ==> Pop(Push(body, v), t) == Some((body, v))
    ensures !Short(v) ==> Pop(Push(body, v), t).None? || Pop(Push(body, v), t).value.1 != v
    decreases t, 0
  {
    match t
    case FixedShape(w) =>
      assert (body + v.bytes)[..|body|] == body;
      assert (body + v.bytes)[|body|..] == v.bytes;
    case TextShape =>
      RoundTripText(body, v.chars);
    case VectorShape(elem) =>
      RoundTripVector(body, v.items, elem);
  }

  lemma {:induction false} RoundTripVector(body: seq<Byte>, items: seq<Value>, elem: Shape)
    requires HasShape(Vector(items), VectorShape(elem))
    ensures Short(Vector(items)) ==>
              Pop(Push(body, Vector(items)), VectorShape(elem)) == Some((body, Vector(items)))
    ensures !Short(Vector(items)) ==>
              Pop(Push(body, Vector(items)), VectorShape(elem)).None? ||
              Pop(Push(body, Vector(items)), VectorShape(elem)).value.1 != Vector(items)
    decreases elem, |items| + 2
  {
    CountRoundTrip(PushAll(body, items), |items| % U32_LIMIT);
    if |items| < U32_LIMIT {
      RoundTripMany(body, items, elem);
    }
  }

  /** The 32-bit count is read back from the end of the body. */
  lemma CountRoundTrip(rest: seq<Byte>, n: nat)
    requires n < U32_LIMIT
    ensures var pushed := rest + LeBytes(n, 4);
            pushed[..|pushed| - 4] == rest && LeValue(pushed[|pushed| - 4..]) == n
  {
    U32RoundTrip(n);
    var pushed := rest + LeBytes(n, 4);
    assert pushed[|pushed| - 4..] == LeBytes(n, 4);
  }

  lemma RoundTripText(body: seq<Byte>, chars: seq<Byte>)
    ensures |chars| < U32_LIMIT ==> Pop(Push(body, Text(chars)), TextShape) == Some((body, Text(chars)))
    ensures |chars| >= U32_LIMIT ==>
              Pop(Push(body, Text(chars)), TextShape).None? ||
              Pop(Push(body, Text(chars)), TextShape).value.1 != Text(chars)
  {
    var n := |chars| % U32_LIMIT;
    CountRoundTrip(body + chars, n);
    var rest := body + chars;
    if |chars| < U32_LIMIT {
      assert rest[..|rest| - n] == body;
      assert rest[|rest| - n..] == chars;
    }
  }

  lemma {:induction false} RoundTripMany(body: seq<Byte>, vs: seq<Value>, t: Shape)
    requires forall x <- vs :: HasShape(x, t)
    ensures (forall x <- vs :: Short(x)) ==> PopMany(PushAll(body, vs), t, |vs|) == Some((body, vs))
    ensures !(forall x <- vs :: Short(x)) ==>
              PopMany(PushAll(body, vs), t, |vs|).None? || PopMany(PushAll(body, vs), t, |vs|).value.1 != vs
    decreases t, |vs| + 1
  {
    if vs != [] {
      var init, last := vs[..|vs| - 1], vs[|vs| - 1];
      assert vs == init + [last];
      PushAllLast(body, vs);
      RoundTrip(PushAll(body, init), last, t);
      RoundTripMany(body, init, t);
    }
  }

  /** Any list of values comes back when its shapes are popped in reverse order. */
  lemma {:induction false} RoundTripAll(body: seq<Byte>, vs: seq<Value>, ts: seq<Shape>)
    requires |vs| == |ts| && forall i | 0 <= i < |vs| :: HasShape(vs[i], ts[i])
    ensures (forall x <- vs :: Short(x)) ==> PopAll(PushAll(body, vs), ts) == Some((body, vs))
    ensures !(forall x <- vs :: Short(x)) ==>
              PopAll(PushAll(body, vs), ts).None? || PopAll(PushAll(body, vs), ts).value.1 != vs
    decreases |vs|
  {
    hide Push, Pop, HasShape, Short;
    if vs != [] {
      var init, last := vs[..|vs| - 1], vs[|vs| - 1];
      assert vs == init + [last];
      assert (forall x <- vs :: Short(x)) <==> Short(last) && forall x <- init :: Short(x);
      PushAllLast(body, vs);
      hide PushAll;
      RoundTrip(PushAll(body, init), last, ts[|ts| - 1]);
      RoundTripAll(body, init, ts[..|ts| - 1]);
    }
  }

  /** A message that is being built or taken apart. */
  class MessageBuffer {
    const id: nat
    var size: nat
    var body: seq<Byte>

    constructor (id: nat)
      ensures this.id == id && size == 0 && body == []
    {
      this.id := id;
      size, body := 0, [];
    }

    /** The header size is the body length in 32 bits. */
    predicate Valid()
      reads this
    {
      size == |body| % U32_LIMIT
    }

    method PushFixed(bytes: seq<Byte>)
      modifies this
      ensures body == old(body) + bytes && Valid()
    {
      body := body + bytes;
      size := |body| % U32_LIMIT;
    }

    method PushText(chars: seq<Byte>)
      modifies this
      ensures body == Push(old(body), Text(chars)) && Valid()
    {
      for i := 0 to |chars|
        invariant body == old(body) + chars[..i]
      {
        PushFixed([chars[i]]);
      }
      PushFixed(LeBytes(|chars| % U32_LIMIT, 4));
    }

    method PushVector(items: seq<Value>)
      modifies this
      ensures body == Push(old(body), Vector(items)) && Valid()
      decreases items, 0
    {
      for i := 0 to |items|
        invariant body == PushAll(old(body), items[..i])
      {
        assert items[..i + 1][..i] == items[..i];
        PushAllLast(old(body), items[..i + 1]);
        PushValue(items[i]);
      }
      assert items[..|items|] == items;
      PushFixed(LeBytes(|items| % U32_LIMIT, 4));
    }

    method PushValue(v: Value)
      modifies this
      ensures body == Push(old(body), v) && Valid()
      decreases v, 1
    {
      match v
      case Fixed(bytes) => PushFixed(bytes);
      case Text(chars) => PushText(chars);
      case Vector(items) => PushVector(items);
    }

    method PopFixed(width: nat) returns (bytes: seq<Byte>)
      requires width <= |body|
      modifies this
      ensures body == old(body)[..|old(body)| - width] && bytes == old(body)[|old(body)| - width..]
      ensures Valid()
    {
      var n := |body| - width;
      bytes := body[n..];
      body := body[..n];
      size := |body| % U32_LIMIT;
    }

    method PopText() returns (chars: seq<Byte>)
      requires Pop(body, TextShape).Some?
      modifies this
      ensures Some((body, Text(chars))) == Pop(old(body), TextShape) && Valid()
    {
      var count := PopFixed(4);
      var n := LeValue(count);
      ghost var rest := body;
      chars := [];
      for i := 0 to n
        invariant n <= |rest| && body == rest[..|rest| - i] && chars == rest[|rest| - i..]
        invariant Valid()
      {
        var c := PopFixed(1);
        assert rest[|rest| - i - 1..] == c + rest[|rest| - i..];
        chars := c + chars;
      }
    }

    method PopVector(elem: Shape) returns (items: seq<Value>)
      requires Pop(body, VectorShape(elem)).Some?
      modifies this
      ensures Some((body, Vector(items))) == Pop(old(body), VectorShape(elem)) && Valid()
      decreases elem, 3
    {
      var count := PopFixed(4);
      var n := LeValue(count);
      ghost var rest := body;
      items := [];
      for i := 0 to n
        invariant Valid()
        invariant PopMany(rest, elem, n).Some? && PopMany(body, elem, n - i).Some?
        invariant PopMany(rest, elem, n).value.0 == PopMany(body, elem, n - i).value.0
        invariant PopMany(rest, elem, n).value.1 == PopMany(body, elem, n - i).value.1 + items
      {
        var item := PopValue(elem);
        items := [item] + items;
      }
      assert [] + items == items;
    }

    method PopValue(t: Shape) returns (v: Value)
      requires Pop(body, t).Some?
      modifies this
      ensures Some((body, v)) == Pop(old(body), t) && Valid()
      decreases t, 2
    {
      match t
      case FixedShape(w) =>
        var bytes := PopFixed(w);
        v := Fixed(bytes);
      case TextShape =>
        var chars := PopText();
        v := Text(chars);
      case VectorShape(elem) =>
        var items := PopVector(elem);
        v := Vector(items);
    }
  }

  /** The layout: the object bytes of a fixed-size value; the characters of a string and then their number; the elements
      of a vector, one after another, and then their number. */
  lemma {:induction false} Layout(body: seq<Byte>, v: Value)
    ensures v.Fixed? ==> Push(body, v) == body + v.bytes
    ensures v.Text? ==> Push(body, v) == body + v.chars + LeBytes(|v.chars| % U32_LIMIT, 4)
    ensures v.Vector? && v.items == [] ==> Push(body, v) == body + [0, 0, 0, 0]
    ensures v.Vector? && (forall x <- v.items :: x.Fixed?) ==>
              Push(body, v) == body + Together(v.items) + LeBytes(|v.items| % U32_LIMIT, 4)
  {
    if v.Vector? {
      if forall x <- v.items :: x.Fixed? {
        AllTogether(body, v.items);
      }
    }
  }

  /** The bytes of fixed-size values, one after another. */
  function Together(vs: seq<Value>): seq<Byte>
    requires forall x <- vs :: x.Fixed?
  {
    if vs == [] then [] else vs[0].bytes + Together(vs[1..])
  }

  lemma {:induction false} AllTogether(body: seq<Byte>, vs: seq<Value>)
    requires forall x <- vs :: x.Fixed?
    ensures PushAll(body, vs) == body + Together(vs)
    decreases |vs|
  {
    if vs != [] {
      AllTogether(body + vs[0].bytes, vs[1..]);
    }
  }
}
