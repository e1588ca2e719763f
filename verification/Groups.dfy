/**
 * What skipHotstuff accepts. The skipper counts open groups in an integer; the reference definition here
 * is the recursive grammar of the Protocol Buffers encoding: an element is a tag with its payload, and a
 * group is a start tag, elements, and an end tag.
 */
module Groups {
  import opened Basics
  import opened Wire

  function After(n: nat, r: Option<nat>): Option<nat> {
    if r.Some? then Some(n + r.value) else None
  }

  /** The length of the element that s starts with. */
  function Element(s: Bytes): (r: Option<nat>)
    ensures r.Some? ==> 0 < r.value <= |s|
    decreases |s|, 0
  {
    match ReadVarint(s)
    case Err(_) => None
    case Ok((wire, n)) =>
      match wire % 8
      case 0 => if ReadVarint(s[n..]).Ok? then Some(n + ReadVarint(s[n..]).value.1) else None
      case 1 => if n + 8 <= |s| then Some(n + 8) else None
      case 2 => if ReadChunk(s[n..], n).Ok? then Some(n + ReadChunk(s[n..], n).value.1) else None
      case 3 => After(n, Body(s[n..]))
      case 5 => if n + 4 <= |s| then Some(n + 4) else None
      case _ => None
  }

  /** The length of a group after its start tag: elements up to and including the end tag. */
  function Body(s: Bytes): (r: Option<nat>)
    ensures r.Some? ==> 0 < r.value <= |s|
    decreases |s|, 1
  {
    match ReadVarint(s)
    case Err(_) => None
    case Ok((wire, n)) =>
      if wire % 8 == 4 then Some(n)
      else
        match Element(s)
        case None => None
        case Some(k) => After(k, Body(s[k..]))
  }

  /** `depth` group bodies, one after the other. */
  function Bodies(s: Bytes, depth: nat): Option<nat> {
    if depth == 0 then Some(0)
    else
      match Body(s)
      case None => None
      case Some(k) => After(k, Bodies(s[k..], depth - 1))
  }

  function Inside(r: Result<nat, WireError>, s: Bytes): Option<nat> {
    if r.Ok? && r.value <= |s| then Some(r.value) else None
  }

  lemma ChunkLength(s: Bytes, pos: nat)
    ensures ReadVarint(s).Err? ==> ReadChunk(s, pos).Err?
    ensures ReadVarint(s).Ok? ==>
      var end := ReadVarint(s).value.1 + ToInt64(ReadVarint(s).value.0);
      && (ReadChunk(s, pos).Ok? <==> ToInt64(ReadVarint(s).value.0) >= 0 && pos + end < INT64 && end <= |s|)
      && (ReadChunk(s, pos).Ok? ==> ReadChunk(s, pos).value.1 == end)
  {
    hide ReadVarint, ReadChunk;
    ChunkExactly(s, pos);
  }

  lemma SkipOneCases(s: Bytes, pos: nat, depth: nat)
    requires pos + |s| < INT64
    ensures ReadVarint(s).Err? ==> SkipOne(s, pos, depth).Err? && Element(s).None?
    ensures ReadVarint(s).Ok? ==>
      var wire, n := ReadVarint(s).value.0, ReadVarint(s).value.1;
      if wire % 8 == 3 then SkipOne(s, pos, depth) == Ok((n, depth + 1)) && Element(s) == After(n, Body(s[n..]))
      else if wire % 8 == 4 then
        && SkipOne(s, pos, depth) == (if depth == 0 then Err(UnexpectedEndOfGroup) else Ok((n, depth - 1)))
        && Element(s).None?
      else if Element(s).Some? then SkipOne(s, pos, depth) == Ok((Element(s).value, depth))
      else SkipOne(s, pos, depth).Ok? ==> SkipOne(s, pos, depth).value.0 > |s| && SkipOne(s, pos, depth).value.1 == depth
  {
    hide ReadVarint, ReadChunk, Body;
    if ReadVarint(s).Ok? {
      ChunkLength(s[ReadVarint(s).value.1..], pos + ReadVarint(s).value.1);
      ChunkLength(s[ReadVarint(s).value.1..], ReadVarint(s).value.1);
    }
  }

  lemma BodyCases(s: Bytes)
    ensures Body(s) ==
      if ReadVarint(s).Err? then None
      else if ReadVarint(s).value.0 % 8 == 4 then Some(ReadVarint(s).value.1)
      else if Element(s).None? then None
      else After(Element(s).value, Body(s[Element(s).value..]))
  {
    hide ReadVarint, Element;
  }

  /** With groups open, the skipper stops exactly where their bodies end. */
  lemma {:induction false} SkipIsBodies(s: Bytes, pos: nat, depth: nat)
    requires depth > 0 && pos + |s| < INT64
    ensures Inside(Skip(s, pos, depth), s) == Bodies(s, depth)
    decreases |s|
  {
    hide SkipOne, ReadVarint, Element, Body;
    SkipOneCases(s, pos, depth);
    BodyCases(s);
    if ReadVarint(s).Ok? && SkipOne(s, pos, depth).Ok? {
      var wire, n := ReadVarint(s).value.0, ReadVarint(s).value.1;
      var k, d := SkipOne(s, pos, depth).value.0, SkipOne(s, pos, depth).value.1;
      if d != 0 && k < |s| {
        SkipIsBodies(s[k..], pos + k, d);
      }
      if wire % 8 == 3 {
        GroupThenBodies(s, n, depth);
      } else if wire % 8 != 4 && Element(s).Some? {
        ElementThenBodies(s, k, depth);
      }
    }
  }

  lemma ElementThenBodies(s: Bytes, k: nat, depth: nat)
    requires depth > 0 && Element(s) == Some(k) && ReadVarint(s).Ok? && ReadVarint(s).value.0 % 8 != 4
    ensures Bodies(s, depth) == After(k, Bodies(s[k..], depth))
  {
    hide ReadVarint, Element;
    if Body(s[k..]).Some? {
      assert Body(s) == Some(k + Body(s[k..]).value);
      assert s[k..][Body(s[k..]).value..] == s[Body(s).value..];
    }
  }

  lemma GroupThenBodies(s: Bytes, n: nat, depth: nat)
    requires depth > 0 && ReadVarint(s).Ok? && ReadVarint(s).value.0 % 8 == 3 && n == ReadVarint(s).value.1
    ensures Bodies(s, depth) == After(n, Bodies(s[n..], depth + 1))
  {
    hide ReadVarint;
    var body := Body(s[n..]);
    if body.Some? {
      assert Element(s) == Some(n + body.value);
      assert s[n..][body.value..] == s[n + body.value..];
      ElementThenBodies(s, n + body.value, depth);
    }
  }

  /** From depth 0 the skipper accepts exactly one element of the grammar, and moves past exactly that. */
  lemma SkipIsElement(s: Bytes)
    requires |s| < INT64
    ensures Inside(Skip(s, 0, 0), s) == Element(s)
  {
    hide SkipOne, ReadVarint, Element, Body;
    SkipOneCases(s, 0, 0);
    if ReadVarint(s).Ok? && ReadVarint(s).value.0 % 8 == 3 {
      var n := ReadVarint(s).value.1;
      if n < |s| {
        SkipIsBodies(s[n..], n, 1);
        if Body(s[n..]).Some? {
          assert Bodies(s[n..][Body(s[n..]).value..], 0) == Some(0);
        }
      }
    }
  }
}
