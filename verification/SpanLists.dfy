/** Lists of evidence spans: the first span of each value, look-ups, and blocks of one field each. */
module SpanLists {
  import opened Options

  datatype SpanField =
    | Addresses | ParcelNumbers | CaseNumbers | PermitNumbers | MoneyAmounts | Deadlines | Actions | Decisions
    | Title | Summary | PublishedAt | ProjectNames | AgendaItems

  datatype Span = Span(field: SpanField, value: string, sourceText: string, start: nat, end: nat)

  predicate HasValue(spans: seq<Span>, value: string) {
    exists i :: 0 <= i < |spans| && spans[i].value == value
  }

  function ValuesIn(spans: seq<Span>): seq<string> {
    seq(|spans|, i requires 0 <= i < |spans| => spans[i].value)
  }

  /** The first span of every value. */
  function FirstOf(spans: seq<Span>): seq<Span> {
    if spans == [] then [] else
    var (earlier, span) := (FirstOf(spans[..|spans| - 1]), spans[|spans| - 1]);
    if HasValue(earlier, span.value) then earlier else earlier + [span]
  }

  ghost predicate DistinctValues(spans: seq<Span>) {
    forall i, j :: 0 <= i < j < |spans| ==> spans[i].value != spans[j].value
  }

  /** Position `k` is the first with its value. */
  ghost predicate FirstAt(spans: seq<Span>, k: nat)
    requires k < |spans|
  {
    forall j :: 0 <= j < k ==> spans[j].value != spans[k].value
  }

  lemma {:induction false} FirstOfDistinct(spans: seq<Span>)
    ensures DistinctValues(FirstOf(spans))
  {
    if spans != [] {
      FirstOfDistinct(spans[..|spans| - 1]);
    }
  }

  lemma {:induction false} EveryValueListed(spans: seq<Span>, k: nat)
    requires k < |spans|
    ensures HasValue(FirstOf(spans), spans[k].value)
  {
    var (fewer, firsts) := (spans[..|spans| - 1], FirstOf(spans));
    var earlier := FirstOf(fewer);
    if k < |spans| - 1 {
      EveryValueListed(fewer, k);
      var i :| 0 <= i < |earlier| && earlier[i].value == spans[k].value;
      assert firsts[i] == earlier[i];
    } else if !HasValue(earlier, spans[k].value) {
      assert firsts[|earlier|] == spans[k];
    }
  }

  lemma {:induction false} EverySpanFirst(spans: seq<Span>, i: nat)
    requires i < |FirstOf(spans)|
    ensures exists k :: 0 <= k < |spans| && FirstOf(spans)[i] == spans[k] && FirstAt(spans, k)
  {
    var (fewer, last) := (spans[..|spans| - 1], |spans| - 1);
    var earlier := FirstOf(fewer);
    if i < |earlier| {
      EverySpanFirst(fewer, i);
      var k :| 0 <= k < |fewer| && earlier[i] == fewer[k] && FirstAt(fewer, k);
      assert FirstAt(spans, k);
    } else {
      forall j | 0 <= j < last
        ensures spans[j].value != spans[last].value
      {
        EveryValueListed(fewer, j);
      }
      assert FirstAt(spans, last);
    }
  }

  /** One span for each value that some match has, taken from the first match with it. */
  lemma FirstOfIsFirst(spans: seq<Span>)
    ensures var firsts := FirstOf(spans);
      && DistinctValues(firsts)
      && (forall i :: 0 <= i < |firsts| ==> exists k :: 0 <= k < |spans| && firsts[i] == spans[k] && FirstAt(spans, k))
      && (forall k :: 0 <= k < |spans| ==> HasValue(firsts, spans[k].value))
  {
    FirstOfDistinct(spans);
    forall i | 0 <= i < |FirstOf(spans)|
      ensures exists k :: 0 <= k < |spans| && FirstOf(spans)[i] == spans[k] && FirstAt(spans, k)
    {
      EverySpanFirst(spans, i);
    }
    forall k | 0 <= k < |spans|
      ensures HasValue(FirstOf(spans), spans[k].value)
    {
      EveryValueListed(spans, k);
    }
  }

  lemma NextSpan(spans: seq<Span>, i: nat)
    requires i < |spans|
    ensures var earlier := FirstOf(spans[..i]);
      && (HasValue(earlier, spans[i].value) <==> spans[i].value in ValuesIn(earlier))
      && FirstOf(spans[..i + 1]) == if HasValue(earlier, spans[i].value) then earlier else earlier + [spans[i]]
  {
    var earlier := FirstOf(spans[..i]);
    assert spans[..i + 1][..i] == spans[..i];
    assert forall j :: 0 <= j < |earlier| ==> ValuesIn(earlier)[j] == earlier[j].value;
  }

  /* ---- Decisions ---- */

  function LookUp(spans: seq<Span>, value: string): (r: Option<Span>)
    ensures r.Some? <==> HasValue(spans, value)
    ensures r.Some? ==> exists i :: 0 <= i < |spans| && spans[i] == r.value && r.value.value == value
                                    && forall j :: 0 <= j < i ==> spans[j].value != value
  {
    if spans == [] then None
    else if spans[0].value == value then Some(spans[0])
    else
      var r := LookUp(spans[1..], value);
      assert r.Some? ==> forall i :: 0 <= i < |spans[1..]| ==> spans[1..][i] == spans[i + 1];
      assert HasValue(spans, value) ==> HasValue(spans[1..], value) by {
        if i :| 0 <= i < |spans| && spans[i].value == value {
          assert spans[1..][i - 1].value == value;
        }
      }
      r
  }

  function Chosen(values: seq<string>, decides: string -> bool): (r: seq<string>)
    ensures forall v :: v in r <==> v in values && decides(v)
  {
    if values == [] then [] else
    Chosen(values[..|values| - 1], decides) + (if decides(values[|values| - 1]) then [values[|values| - 1]] else [])
  }

  function DecisionSpan(spans: seq<Span>, value: string): Span
    requires HasValue(spans, value)
  {
    LookUp(spans, value).value.(field := Decisions)
  }

  function DecisionSpans(spans: seq<Span>, decisions: seq<string>): seq<Span>
    requires forall v :: v in decisions ==> HasValue(spans, v)
  {
    seq(|decisions|, i requires 0 <= i < |decisions| => assert decisions[i] in decisions; DecisionSpan(spans, decisions[i]))
  }

  lemma DecisionSpansNext(spans: seq<Span>, decisions: seq<string>, i: nat)
    requires i < |decisions| && forall v :: v in decisions ==> HasValue(spans, v)
    ensures forall v :: v in decisions[..i] ==> v in decisions
    ensures forall v :: v in decisions[..i + 1] ==> v in decisions
    ensures decisions[i] in decisions
    ensures DecisionSpans(spans, decisions[..i + 1])
         == DecisionSpans(spans, decisions[..i]) + [DecisionSpan(spans, decisions[i])]
  {
  }

  /** Spans added for earlier decisions do not disturb the look-up of the next one. */
  lemma NextDecision(spans: seq<Span>, decisions: seq<string>, i: nat)
    requires i < |decisions| && forall v :: v in decisions ==> HasValue(spans, v)
    ensures forall v :: v in decisions[..i] ==> v in decisions
    ensures decisions[i] in decisions
    ensures var all := spans + DecisionSpans(spans, decisions[..i]);
      HasValue(all, decisions[i]) && LookUp(all, decisions[i]) == LookUp(spans, decisions[i])
  {
    DecisionSpansNext(spans, decisions, i);
    LookUpStable(spans, DecisionSpans(spans, decisions[..i]), decisions[i]);
  }

  lemma HasValueAppended(spans: seq<Span>, more: seq<Span>, value: string)
    requires HasValue(spans, value)
    ensures HasValue(spans + more, value)
  {
    var i :| 0 <= i < |spans| && spans[i].value == value;
    assert (spans + more)[i].value == value;
  }

  lemma HasValueLater(spans: seq<Span>, value: string)
    requires HasValue(spans, value) && spans[0].value != value
    ensures HasValue(spans[1..], value)
  {
    var i :| 0 <= i < |spans| && spans[i].value == value;
    assert spans[1..][i - 1].value == value;
  }

  lemma TailAppended<T>(s: seq<T>, more: seq<T>)
    requires s != []
    ensures (s + more)[0] == s[0] && (s + more)[1..] == s[1..] + more
  {
  }

  lemma {:induction false} LookUpStable(spans: seq<Span>, more: seq<Span>, value: string)
    requires HasValue(spans, value)
    ensures HasValue(spans + more, value) && LookUp(spans + more, value) == LookUp(spans, value)
  {
    HasValueAppended(spans, more, value);
    if spans[0].value != value {
      HasValueLater(spans, value);
      LookUpStable(spans[1..], more, value);
      TailAppended(spans, more);
    }
  }

  lemma {:induction false} ChosenDistinct(values: seq<string>, decides: string -> bool)
    requires forall i, j :: 0 <= i < j < |values| ==> values[i] != values[j]
    ensures forall i, j :: 0 <= i < j < |Chosen(values, decides)| ==> Chosen(values, decides)[i] != Chosen(values, decides)[j]
  {
    if values != [] {
      ChosenDistinct(values[..|values| - 1], decides);
    }
  }

  lemma DecisionSpansSound(spans: seq<Span>, decisions: seq<string>)
    requires forall v :: v in decisions ==> HasValue(spans, v)
    requires forall i, j :: 0 <= i < j < |decisions| ==> decisions[i] != decisions[j]
    ensures Sound(Block(Decisions, DecisionSpans(spans, decisions)))
    ensures ValuesIn(DecisionSpans(spans, decisions)) == decisions
  {
    forall i | 0 <= i < |decisions|
      ensures DecisionSpans(spans, decisions)[i].field == Decisions && DecisionSpans(spans, decisions)[i].value == decisions[i]
    {
      assert decisions[i] in decisions;
    }
  }

  /* ---- Blocks ---- */

  // Spans of one field, one for each value.
  datatype Block = Block(field: SpanField, spans: seq<Span>)

  ghost predicate AllOf(spans: seq<Span>, f: SpanField) {
    forall i :: 0 <= i < |spans| ==> spans[i].field == f
  }

  ghost predicate Sound(b: Block) {
    AllOf(b.spans, b.field) && DistinctValues(b.spans)
  }

  ghost predicate Labelled(blocks: seq<Block>) {
    && (forall i :: 0 <= i < |blocks| ==> Sound(blocks[i]))
    && (forall i, j :: 0 <= i < j < |blocks| ==> blocks[i].field != blocks[j].field)
  }

  function Flatten(blocks: seq<Block>): seq<Span> {
    if blocks == [] then [] else Flatten(blocks[..|blocks| - 1]) + blocks[|blocks| - 1].spans
  }

  lemma FlattenSnoc(blocks: seq<Block>, b: Block)
    ensures Flatten(blocks + [b]) == Flatten(blocks) + b.spans
  {
    assert (blocks + [b])[..|blocks|] == blocks;
  }

  ghost predicate NoneOf(spans: seq<Span>, f: SpanField) {
    forall i :: 0 <= i < |spans| ==> spans[i].field != f
  }

  predicate Bears(s: Span, f: SpanField, v: string) {
    s.field == f && s.value == v
  }

  ghost predicate OneSpan(spans: seq<Span>, f: SpanField, v: string) {
    exists i :: 0 <= i < |spans| && Bears(spans[i], f, v) && forall j :: 0 <= j < |spans| && Bears(spans[j], f, v) ==> j == i
  }

  lemma OneSpanAmong(before: seq<Span>, spans: seq<Span>, after: seq<Span>, f: SpanField, v: string)
    requires NoneOf(before, f) && NoneOf(after, f) && OneSpan(spans, f, v)
    ensures OneSpan(before + spans + after, f, v)
  {
    var i :| 0 <= i < |spans| && Bears(spans[i], f, v) && forall j :: 0 <= j < |spans| && Bears(spans[j], f, v) ==> j == i;
    var all := before + spans + after;
    assert Bears(all[|before| + i], f, v);
    forall j | 0 <= j < |all| && Bears(all[j], f, v)
      ensures j == |before| + i
    {
      if |before| <= j < |before| + |spans| {
        assert Bears(spans[j - |before|], f, v);
      }
    }
  }

  lemma DistinctGivesOne(spans: seq<Span>, f: SpanField, v: string)
    requires AllOf(spans, f) && DistinctValues(spans) && HasValue(spans, v)
    ensures OneSpan(spans, f, v)
  {
    var i :| 0 <= i < |spans| && spans[i].value == v;
    assert Bears(spans[i], f, v);
  }

  lemma {:induction false} FirstOfField(spans: seq<Span>, f: SpanField)
    requires AllOf(spans, f)
    ensures AllOf(FirstOf(spans), f)
  {
    if spans != [] {
      FirstOfField(spans[..|spans| - 1], f);
    }
  }

  lemma FirstOfSound(spans: seq<Span>, f: SpanField)
    requires AllOf(spans, f)
    ensures Sound(Block(f, FirstOf(spans)))
  {
    FirstOfField(spans, f);
    FirstOfDistinct(spans);
  }

  lemma {:induction false} FlattenMember(blocks: seq<Block>, s: Span)
    ensures s in Flatten(blocks) <==> exists k :: 0 <= k < |blocks| && s in blocks[k].spans
  {
    if blocks != [] {
      FlattenMember(blocks[..|blocks| - 1], s);
    }
  }

  /** A span of a block's field can only come from that block. */
  lemma BlockMember(blocks: seq<Block>, k: nat, s: Span)
    requires Labelled(blocks) && k < |blocks| && s.field == blocks[k].field
    ensures s in Flatten(blocks) <==> s in blocks[k].spans
  {
    FlattenMember(blocks, s);
    if i :| 0 <= i < |blocks| && s in blocks[i].spans {
      assert Sound(blocks[i]);
      assert i == k;
    }
  }

  lemma FlattenNone(blocks: seq<Block>, f: SpanField)
    requires Labelled(blocks) && forall k :: 0 <= k < |blocks| ==> blocks[k].field != f
    ensures NoneOf(Flatten(blocks), f)
  {
    var all := Flatten(blocks);
    forall i | 0 <= i < |all|
      ensures all[i].field != f
    {
      FlattenMember(blocks, all[i]);
      var k :| 0 <= k < |blocks| && all[i] in blocks[k].spans;
      assert Sound(blocks[k]);
    }
  }

  lemma OneSpanPrepended(before: seq<Span>, spans: seq<Span>, f: SpanField, v: string)
    requires NoneOf(before, f) && OneSpan(spans, f, v)
    ensures OneSpan(before + spans, f, v)
  {
    OneSpanAmong(before, spans, [], f, v);
    assert before + spans + [] == before + spans;
  }

  lemma OneSpanAppended(spans: seq<Span>, after: seq<Span>, f: SpanField, v: string)
    requires NoneOf(after, f) && OneSpan(spans, f, v)
    ensures OneSpan(spans + after, f, v)
  {
    OneSpanAmong([], spans, after, f, v);
    assert [] + spans + after == spans + after;
  }

  lemma BlockHasOne(b: Block, v: string)
    requires Sound(b) && v in ValuesIn(b.spans)
    ensures OneSpan(b.spans, b.field, v)
  {
    ValuesListed([], b.spans, v);
    assert [] + b.spans == b.spans;
    DistinctGivesOne(b.spans, b.field, v);
  }

  /** In a list of blocks with different fields, a value of a block has exactly one span. */
  lemma {:induction false} FlattenOne(blocks: seq<Block>, k: nat, v: string)
    requires Labelled(blocks) && k < |blocks| && v in ValuesIn(blocks[k].spans)
    ensures OneSpan(Flatten(blocks), blocks[k].field, v)
    decreases |blocks|
  {
    var (before, last, f) := (blocks[..|blocks| - 1], blocks[|blocks| - 1], blocks[k].field);
    assert Labelled(before) && Sound(last);
    if k == |blocks| - 1 {
      FlattenNone(before, f);
      BlockHasOne(last, v);
      OneSpanPrepended(Flatten(before), last.spans, f, v);
    } else {
      FlattenOne(before, k, v);
      assert NoneOf(last.spans, f);
      OneSpanAppended(Flatten(before), last.spans, f, v);
    }
  }

  lemma ValuesListed(earlier: seq<Span>, spans: seq<Span>, v: string)
    requires v in ValuesIn(spans)
    ensures HasValue(earlier + spans, v)
  {
    var i :| 0 <= i < |spans| && spans[i].value == v;
    assert (earlier + spans)[|earlier| + i].value == v;
  }

  function FirstIn(spans: seq<Span>, fields: set<SpanField>): (r: Option<Span>)
    ensures r.Some? ==> r.value in spans && r.value.field in fields
    ensures r.Some? <==> exists i :: 0 <= i < |spans| && spans[i].field in fields
  {
    if spans == [] then None
    else if spans[0].field in fields then Some(spans[0])
    else
      var r := FirstIn(spans[1..], fields);
      assert forall i :: 0 < i < |spans| ==> spans[1..][i - 1] == spans[i];
      assert forall i :: 0 <= i < |spans[1..]| ==> spans[1..][i] == spans[i + 1];
      r
  }
}
