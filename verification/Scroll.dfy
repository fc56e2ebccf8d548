// The paged cursor of indexer/db/elasticsearch.go.

module Scroll {
  import opened Wrappers
  import opened UInt64

  // A stored block document: its number, or None when its source does not decode.
  datatype Hit = Hit(no: Option<uint64>)

  // What successive calls of the scroll service answer; afterwards it answers io.EOF.
  datatype Response = Page(hits: seq<Hit>) | Failed

  // What one call of Next returns.
  datatype Outcome = Found(no: uint64) | Error | Eof

  function OfHit(hit: Hit): Outcome {
    match hit.no
    case Some(no) => Found(no)
    case None => Error
  }

  function OfHits(hits: seq<Hit>): (r: seq<Outcome>)
    ensures |r| == |hits| && forall i | 0 <= i < |r| :: r[i] == OfHit(hits[i])
  {
    seq(|hits|, i requires 0 <= i < |hits| => OfHit(hits[i]))
  }

  // An empty page makes the call that loads it report io.EOF.
  function OfResponse(r: Response): seq<Outcome> {
    match r
    case Page(hits) => if hits == [] then [Eof] else OfHits(hits)
    case Failed => [Error]
  }

  function OfResponses(rs: seq<Response>): seq<Outcome> {
    if rs == [] then [] else OfResponse(rs[0]) + OfResponses(rs[1..])
  }

  // A call of Next takes the first of the outcomes to come, and io.EOF when there is none.
  predicate Answers(before: seq<Outcome>, r: Outcome, after: seq<Outcome>) {
    if before == [] then r == Eof && after == [] else r == before[0] && after == before[1..]
  }

  lemma FirstOfPage(hits: seq<Hit>, current: nat, later: seq<Outcome>)
    requires current < |hits|
    ensures var all := OfHits(hits[current..]) + later;
            all[0] == OfHit(hits[current]) && all[1..] == OfHits(hits[current + 1..]) + later
  {
    assert OfHits(hits[current..])[1..] == OfHits(hits[current + 1..]);
  }

  class EsScrollInstance {
    var service: seq<Response>  // the answers still to come
    var result: Option<seq<Hit>>
    var current: nat
    var currentLength: nat

    ghost predicate Valid()
      reads this
    {
      && current <= currentLength
      && currentLength == (if result.Some? then |result.value| else 0)
    }

    // What the calls of Next still to come return, before io.EOF for good.
    ghost function Remaining(): seq<Outcome>
      requires Valid()
      reads this
    {
      (if result.Some? then OfHits(result.value[current..]) else []) + OfResponses(service)
    }

    constructor (responses: seq<Response>)
      ensures Valid() && Remaining() == OfResponses(responses)
    {
      service, result, current, currentLength := responses, None, 0, 0;
      new;
      assert [] + OfResponses(responses) == OfResponses(responses);
    }

    // The scroll service's next answer becomes the current page.
    method Load() returns (r: Option<Outcome>)
      requires Valid() && (result.None? || current == currentLength)
      modifies this
      ensures Valid()
      ensures r.Some? ==> Answers(old(Remaining()), r.value, Remaining())
      ensures r.None? && current == currentLength ==> Answers(old(Remaining()), Eof, Remaining())
      ensures r.None? && current < currentLength ==> result.Some? && Remaining() == old(Remaining())
    {
      assert Remaining() == OfResponses(service);
      if service == [] {
        return Some(Eof);
      }
      var response := service[0];
      service := service[1..];
      if response.Failed? {
        assert Remaining() == OfResponses(service);
        return Some(Error);
      }
      result, current, currentLength := Some(response.hits), 0, |response.hits|;
      assert response.hits[0..] == response.hits;
      if response.hits == [] {
        assert Remaining() == OfResponses(service);
      }
      return None;
    }

    method Next() returns (r: Outcome)
      requires Valid()
      modifies this
      ensures Valid() && Answers(old(Remaining()), r, Remaining())
    {
      if result.None? || current >= currentLength {
        var failure := Load();
        if failure.Some? {
          return failure.value;
        }
      }
      if current < currentLength {
        var hit := result.value[current];
        FirstOfPage(result.value, current, OfResponses(service));
        current := current + 1;
        r := OfHit(hit);
      } else {
        r := Eof;
      }
    }
  }

  function Concat(pages: seq<seq<Hit>>): seq<Hit> {
    if pages == [] then [] else pages[0] + Concat(pages[1..])
  }

  function Pages(pages: seq<seq<Hit>>): seq<Response> {
    seq(|pages|, i requires 0 <= i < |pages| => Page(pages[i]))
  }

  // The cursor refines the flat list: however a result is divided into non-empty pages,
  // the calls of Next return its documents once each and in order.
  lemma {:induction false} PagingIsInvisible(pages: seq<seq<Hit>>)
    requires forall i | 0 <= i < |pages| :: pages[i] != []
    ensures OfResponses(Pages(pages)) == OfHits(Concat(pages))
  {
    if pages != [] {
      assert Pages(pages)[1..] == Pages(pages[1..]);
      PagingIsInvisible(pages[1..]);
    }
  }

  // The block numbers delivered before the first io.EOF; a document that does not
  // decode delivers none.
  function Numbers(outcomes: seq<Outcome>): seq<uint64> {
    if outcomes == [] || outcomes[0].Eof? then []
    else (if outcomes[0].Found? then [outcomes[0].no] else []) + Numbers(outcomes[1..])
  }

  lemma {:induction false} NumbersOfHits(hits: seq<Hit>)
    ensures forall no :: no in Numbers(OfHits(hits)) <==> Hit(Some(no)) in hits
  {
    if hits != [] {
      assert OfHits(hits)[1..] == OfHits(hits[1..]);
      NumbersOfHits(hits[1..]);
      assert hits == [hits[0]] + hits[1..];
    }
  }

  function Answered(responses: seq<Response>): seq<Response> {
    if responses == [] then []
    else (if responses[0].Failed? then [] else [responses[0]]) + Answered(responses[1..])
  }

  lemma {:induction false} NumbersConcat(a: seq<Outcome>, b: seq<Outcome>)
    ensures Numbers(a + b) == if Eof in a then Numbers(a) else Numbers(a) + Numbers(b)
    decreases |a|
  {
    if a == [] {
      assert a + b == b;
    } else {
      assert (a + b)[1..] == a[1..] + b;
      NumbersConcat(a[1..], b);
    }
  }

  // A failed call of the scroll service delivers nothing and ends nothing: the numbers are
  // those of the answers.
  lemma {:induction false} FailuresPassOver(responses: seq<Response>)
    ensures Numbers(OfResponses(responses)) == Numbers(OfResponses(Answered(responses)))
    decreases |responses|
  {
    if responses != [] {
      FailuresPassOver(responses[1..]);
      NumbersConcat(OfResponse(responses[0]), OfResponses(responses[1..]));
      if responses[0].Failed? {
        assert [Error][1..] == [] && Numbers([Error]) == [];
        assert Answered(responses) == Answered(responses[1..]);
      } else {
        assert Answered(responses) == [responses[0]] + Answered(responses[1..]);
        assert Answered(responses)[1..] == Answered(responses[1..]);
        NumbersConcat(OfResponse(responses[0]), OfResponses(Answered(responses[1..])));
      }
    }
  }

  // An empty page is the end: nothing after it is delivered.
  lemma EmptyPageEnds(before: seq<seq<Hit>>, after: seq<Response>)
    requires forall i | 0 <= i < |before| :: before[i] != []
    ensures Numbers(OfResponses(Pages(before) + [Page([])] + after)) == Numbers(OfHits(Concat(before)))
  {
    PagingIsInvisible(before);
    ResponsesConcat(Pages(before), [Page([])] + after);
    assert Pages(before) + [Page([])] + after == Pages(before) + ([Page([])] + after);
    assert ([Page([])] + after)[1..] == after;
    NumbersConcat(OfHits(Concat(before)), OfResponses([Page([])] + after));
  }

  lemma {:induction false} ResponsesConcat(a: seq<Response>, b: seq<Response>)
    ensures OfResponses(a + b) == OfResponses(a) + OfResponses(b)
    decreases |a|
  {
    if a == [] {
      assert a + b == b;
    } else {
      assert (a + b)[1..] == a[1..] + b;
      ResponsesConcat(a[1..], b);
    }
  }
}
