/**
 * Sentence conversion (`conllu2cy`, `findSupTokId`): walks the top-level
 * tokens in order; a multiword token at position n adds one group node
 * `ns<n>` and then the elements of each member, parented to that node; a
 * plain token adds its own elements with no parent.
 */
module GraphBuilder {
  import opened Wrappers
  import opened Decimal
  import opened IdCodec
  import opened Subscript
  import opened Conllu
  import opened Graph
  import opened TokenElements

  /** `findSupTokId`: "first-last" of the member ids; it throws on an empty member list. */
  function FindSupTokId(members: seq<Word>): (r: Option<string>)
    ensures r.None? <==> |members| == 0
  {
    if |members| == 0 then None
    else Some(Show(members[0].id) + "-" + Show(members[|members| - 1].id))
  }

  /** The id range reads back as the first and the last member id. */
  lemma SupTokIdReadBack(members: seq<Word>)
    requires |members| > 0
    ensures var r := FindSupTokId(members).value; var k := |Show(members[0].id)|;
      && k < |r| && r[k] == '-'
      && (forall i :: 0 <= i < |r| && i != k ==> IsDigit(r[i]))
      && AllDigits(r[..k]) && AllDigits(r[k + 1..])
      && Parse(r[..k]) == members[0].id
      && Parse(r[k + 1..]) == members[|members| - 1].id
  {
    var a, b := Show(members[0].id), Show(members[|members| - 1].id);
    var r := a + "-" + b;
    assert r[..|a|] == a;
    assert r[|a| + 1..] == b;
    ParseShow(members[0].id);
    ParseShow(members[|members| - 1].id);
  }

  /**
   * The group node's label: the token's form, a space, then the id range in
   * parentheses, all in subscript characters.
   */
  function GroupLabel(form: string, members: seq<Word>): (r: string)
    ensures |r| == |form| + |FindSupTokId(members).GetOr("")| + 3
    ensures r[..|form|] == form && r[|form|] == ' '
    ensures forall i :: |form| < i < |r| ==> IsLowered(r[i])
  {
    var raw := " (" + FindSupTokId(members).GetOr("") + ")";
    assert forall i :: 0 < i < |raw| ==> raw[i] in LowDigits by {
      if |members| > 0 {
        var a, b := Show(members[0].id), Show(members[|members| - 1].id);
        assert raw == " (" + a + "-" + b + ")";
      }
    }
    LowerKeys(raw);
    form + ToSubscript(raw)
  }

  /** Reading the subscript part of the label back gives " (first-last)". */
  lemma GroupLabelReadBack(form: string, members: seq<Word>)
    ensures var r := GroupLabel(form, members);
      FromSubscript(r[|form|..]) == " (" + FindSupTokId(members).GetOr("") + ")"
  {
    var raw := " (" + FindSupTokId(members).GetOr("") + ")";
    assert forall i :: 0 <= i < |raw| ==> !IsLowered(raw[i]) by {
      if |members| > 0 {
        var a, b := Show(members[0].id), Show(members[|members| - 1].id);
        assert raw == " (" + a + "-" + b + ")";
      }
    }
    SubscriptRoundTrip(raw);
    assert GroupLabel(form, members)[|form|..] == ToSubscript(raw);
  }

  /** A multiword token "didn't" over words 3 to 5 is labelled "didn't ₍₃₋₅₎". */
  lemma GroupLabelExample(ws: seq<Word>)
    requires |ws| == 3 && ws[0].id == 3 && ws[2].id == 5
    ensures GroupLabel("didn't", ws) == "didn't \U{208D}\U{2083}\U{208B}\U{2085}\U{208E}"
  {
    assert Show(3) == "3" && Show(5) == "5";
    var raw := " (" + FindSupTokId(ws).value + ")";
    assert raw == " (3-5)";
    var sub := ToSubscript(raw);
    assert sub == " \U{208D}\U{2083}\U{208B}\U{2085}\U{208E}";
  }

  /** One block of elements per word, in order. */
  function WordBlocks(ws: seq<Word>, parent: Option<string>, leftToRight: bool): (r: seq<seq<Element>>)
    ensures |r| == |ws|
  {
    Map(ws, w => CreateToken(w, parent, leftToRight))
  }

  /** The elements of a list of words: `createToken` for each, appended in order. */
  function MemberElements(ws: seq<Word>, parent: Option<string>, leftToRight: bool): seq<Element> {
    Flatten(WordBlocks(ws, parent, leftToRight))
  }

  /** The elements of the top-level token at position `n`. */
  function TokenBlock(t: Token, n: nat, leftToRight: bool): (r: seq<Element>)
  {
    match t
    case Plain(w) => CreateToken(w, None, leftToRight)
    case Multiword(form, ws) =>
      var spId := ElementId(GroupPrefix, n);
      [Element(GroupNode(spId, GroupLabel(form, ws)), Unclassed)] + MemberElements(ws, Some(spId), leftToRight)
  }

  /**
   * A token's block opens with a group node, the one with id `ns<n>`,
   * exactly when the token is a multiword token.
   */
  lemma TokenBlockShape(t: Token, n: nat, leftToRight: bool)
    ensures var r := TokenBlock(t, n, leftToRight);
      && |r| > 0
      && (r[0].data.GroupNode? <==> t.Multiword?)
      && (t.Multiword? ==> r[0].Id() == ElementId(GroupPrefix, n))
  {
    if t.Plain? {
      CreateTokenContents(t.word, None, leftToRight);
    }
  }

  /** One block per top-level token; the first token sits at position `n`. */
  function TokenBlocks(sent: seq<Token>, n: nat, leftToRight: bool): (r: seq<seq<Element>>)
    ensures |r| == |sent|
  {
    MapIndexed(sent, n, (t, k) => TokenBlock(t, k, leftToRight))
  }

  /** The elements of `sent`: the blocks of its tokens appended in order. */
  function Build(sent: seq<Token>, n: nat, leftToRight: bool): (r: seq<Element>)
    requires NoEmptyMultiword(sent)
  {
    Flatten(TokenBlocks(sent, n, leftToRight))
  }

  lemma MemberElementsCons(ws: seq<Word>, parent: Option<string>, leftToRight: bool)
    requires |ws| > 0
    ensures MemberElements(ws, parent, leftToRight)
         == CreateToken(ws[0], parent, leftToRight) + MemberElements(ws[1..], parent, leftToRight)
  {
    FlattenCons(CreateToken(ws[0], parent, leftToRight), WordBlocks(ws[1..], parent, leftToRight));
  }

  lemma BuildCons(sent: seq<Token>, n: nat, leftToRight: bool)
    requires NoEmptyMultiword(sent) && |sent| > 0
    ensures Build(sent, n, leftToRight) == TokenBlock(sent[0], n, leftToRight) + Build(sent[1..], n + 1, leftToRight)
  {
    FlattenCons(TokenBlock(sent[0], n, leftToRight), TokenBlocks(sent[1..], n + 1, leftToRight));
  }

  lemma WordBlocksIndex(ws: seq<Word>, parent: Option<string>, leftToRight: bool, j: nat)
    requires j < |ws|
    ensures WordBlocks(ws, parent, leftToRight)[j] == CreateToken(ws[j], parent, leftToRight)
  {
    MapAt(ws, w => CreateToken(w, parent, leftToRight), j);
  }

  lemma TokenBlocksIndex(sent: seq<Token>, n: nat, leftToRight: bool, i: nat)
    requires i < |sent|
    ensures TokenBlocks(sent, n, leftToRight)[i] == TokenBlock(sent[i], n + i, leftToRight)
  {
    MapIndexedAt(sent, n, (t, k) => TokenBlock(t, k, leftToRight), i);
  }

  /** `conllu2cy`: the element list, or None where `conllu2cy` throws. */
  function ConlluToCy(sent: seq<Token>, leftToRight: bool): (r: Option<seq<Element>>)
    ensures r.None? <==> exists i :: 0 <= i < |sent| && sent[i].Multiword? && |sent[i].members| == 0
  {
    if NoEmptyMultiword(sent) then Some(Build(sent, 0, leftToRight)) else None
  }

  // ---------------------------------------------------------------------------
  // Element count

  lemma {:induction false} MemberElementsCount(ws: seq<Word>, parent: Option<string>, leftToRight: bool)
    ensures |MemberElements(ws, parent, leftToRight)| == 3 * |ws| + CountHeaded(ws)
  {
    if |ws| > 0 {
      MemberElementsCons(ws, parent, leftToRight);
      MemberElementsCount(ws[1..], parent, leftToRight);
    }
  }

  lemma {:induction false} BuildCount(sent: seq<Token>, n: nat, leftToRight: bool)
    requires NoEmptyMultiword(sent)
    ensures |Build(sent, n, leftToRight)|
         == 3 * |AllWords(sent)| + CountHeaded(AllWords(sent)) + CountMultiword(sent)
  {
    if |sent| > 0 {
      BuildCons(sent, n, leftToRight);
      BuildCount(sent[1..], n + 1, leftToRight);
      CountHeadedConcat(WordsOf(sent[0]), AllWords(sent[1..]));
      match sent[0]
      case Plain(w) =>
        assert CountHeaded([w]) == if HasHead(w) then 1 else 0;
      case Multiword(_, ws) =>
        MemberElementsCount(ws, Some(ElementId(GroupPrefix, n)), leftToRight);
    }
  }

  /**
   * Every sentence of well-formed multiword tokens converts to three elements
   * per word, one more per word with a head, and one per multiword token.
   */
  lemma ConlluToCyCount(sent: seq<Token>, leftToRight: bool)
    requires NoEmptyMultiword(sent)
    ensures ConlluToCy(sent, leftToRight).Some?
    ensures |ConlluToCy(sent, leftToRight).value|
         == 3 * |AllWords(sent)| + CountHeaded(AllWords(sent)) + CountMultiword(sent)
  {
    BuildCount(sent, 0, leftToRight);
  }

  // ---------------------------------------------------------------------------
  // Distinct ids

  const WordPrefixes: set<string> := {WordFormPrefix, PosPrefix, PosEdgePrefix, DepEdgePrefix}

  /** An element id of a word: a word prefix on the padded form of a number in `ids`. */
  predicate WordElementId(id: string, ids: set<nat>) {
    |id| >= 2 && id[..2] in WordPrefixes && id[2..] in PadSet(ids)
  }

  /** An element id of the group node of a token at one of `positions`. */
  predicate GroupElementId(id: string, positions: set<nat>) {
    |id| >= 2 && id[..2] == GroupPrefix && id[2..] in PadSet(positions)
  }

  /** The positions lo, lo + 1, ..., lo + count - 1. */
  function Positions(lo: nat, count: nat): (r: set<nat>)
    ensures forall j :: j in r <==> lo <= j < lo + count
    decreases count
  {
    if count == 0 then {} else {lo} + Positions(lo + 1, count - 1)
  }

  lemma PrefixesDistinct()
    ensures forall i, j :: 0 <= i < j < |WordPrefixOrder| ==> WordPrefixOrder[i] != WordPrefixOrder[j]
    ensures forall i :: 0 <= i < |WordPrefixOrder| ==> |WordPrefixOrder[i]| == 2 && WordPrefixOrder[i] in WordPrefixes
    ensures GroupPrefix !in WordPrefixes
  {
  }

  lemma CreateTokenIds(w: Word, parent: Option<string>, leftToRight: bool)
    ensures var es := CreateToken(w, parent, leftToRight);
      DistinctElementIds(es) && forall e :: e in es ==> WordElementId(e.Id(), {w.id})
  {
    var es := CreateToken(w, parent, leftToRight);
    CreateTokenIdOrder(w, parent, leftToRight);
    PrefixesDistinct();
    PadSetMember(w.id, {w.id});
    forall k | 0 <= k < |es|
      ensures es[k].Id()[..2] == WordPrefixOrder[k] && es[k].Id()[2..] == StrWithZero(w.id)
    {
      SplitElementId(WordPrefixOrder[k], w.id);
    }
  }

  /** Ids drawn from disjoint number sets never meet. */
  lemma SeparateIds(x: string, y: string, a: set<nat>, b: set<nat>, p: set<nat>, q: set<nat>)
    requires a !! b && p !! q
    requires WordElementId(x, a) || GroupElementId(x, p)
    requires WordElementId(y, b) || GroupElementId(y, q)
    ensures x != y
  {
    PrefixesDistinct();
    PadSetDisjoint(a, b);
    PadSetDisjoint(p, q);
  }

  /** The elements of one word: distinct ids, all on that word's id. */
  predicate WordBlockIds(es: seq<Element>, id: nat) {
    DistinctElementIds(es) && forall e :: e in es ==> WordElementId(e.Id(), {id})
  }

  lemma {:induction false} FlattenIds(xss: seq<seq<Element>>, ws: seq<Word>)
    requires |xss| == |ws| && DistinctIds(ws)
    requires forall i :: 0 <= i < |xss| ==> WordBlockIds(xss[i], ws[i].id)
    ensures DistinctElementIds(Flatten(xss)) && forall e :: e in Flatten(xss) ==> WordElementId(e.Id(), IdSet(ws))
  {
    if |xss| > 0 {
      assert ws == [ws[0]] + ws[1..];
      DistinctIdsSplit([ws[0]], ws[1..]);
      assert IdSet([ws[0]]) == {ws[0].id};
      assert IdSet(ws) == {ws[0].id} + IdSet(ws[1..]);
      assert WordBlockIds(xss[0], ws[0].id);
      forall i | 0 <= i < |xss[1..]| ensures WordBlockIds(xss[1..][i], ws[1..][i].id) {
        assert xss[1..][i] == xss[i + 1] && ws[1..][i] == ws[i + 1];
      }
      FlattenIds(xss[1..], ws[1..]);
      AppendWordIds(xss[0], Flatten(xss[1..]), {ws[0].id}, IdSet(ws[1..]), IdSet(ws));
    }
  }

  lemma MemberElementsIds(ws: seq<Word>, parent: Option<string>, leftToRight: bool)
    requires DistinctIds(ws)
    ensures var es := MemberElements(ws, parent, leftToRight);
      DistinctElementIds(es) && forall e :: e in es ==> WordElementId(e.Id(), IdSet(ws))
  {
    var blocks := WordBlocks(ws, parent, leftToRight);
    forall i | 0 <= i < |blocks| ensures WordBlockIds(blocks[i], ws[i].id) {
      WordBlocksIndex(ws, parent, leftToRight, i);
      CreateTokenIds(ws[i], parent, leftToRight);
    }
    FlattenIds(blocks, ws);
  }

  lemma PadSetSubset(a: set<nat>, b: set<nat>)
    requires a <= b
    ensures PadSet(a) <= PadSet(b)
  {
  }

  /** Word elements of two disjoint id sets, appended, keep all ids distinct. */
  lemma AppendWordIds(x: seq<Element>, y: seq<Element>, a: set<nat>, b: set<nat>, c: set<nat>)
    requires a !! b && a <= c && b <= c
    requires DistinctElementIds(x) && forall e :: e in x ==> WordElementId(e.Id(), a)
    requires DistinctElementIds(y) && forall e :: e in y ==> WordElementId(e.Id(), b)
    ensures DistinctElementIds(x + y)
    ensures forall e :: e in x + y ==> WordElementId(e.Id(), c)
  {
    forall u, v | u in x && v in y ensures u.Id() != v.Id() {
      SeparateIds(u.Id(), v.Id(), a, b, {}, {});
    }
    DistinctConcat(x, y);
    PadSetSubset(a, c);
    PadSetSubset(b, c);
  }

  /** Blocks of disjoint word ids and disjoint positions, appended, keep all ids distinct. */
  lemma AppendBlockIds(x: seq<Element>, y: seq<Element>, a: set<nat>, b: set<nat>, p: set<nat>, q: set<nat>)
    requires a !! b && p !! q
    requires DistinctElementIds(x) && forall e :: e in x ==> WordElementId(e.Id(), a) || GroupElementId(e.Id(), p)
    requires DistinctElementIds(y) && forall e :: e in y ==> WordElementId(e.Id(), b) || GroupElementId(e.Id(), q)
    ensures DistinctElementIds(x + y)
    ensures forall e :: e in x + y ==> WordElementId(e.Id(), a + b) || GroupElementId(e.Id(), p + q)
  {
    forall u, v | u in x && v in y ensures u.Id() != v.Id() {
      SeparateIds(u.Id(), v.Id(), a, b, p, q);
    }
    DistinctConcat(x, y);
    PadSetSubset(a, a + b);
    PadSetSubset(b, a + b);
    PadSetSubset(p, p + q);
    PadSetSubset(q, p + q);
  }

  lemma TokenBlockIds(t: Token, n: nat, leftToRight: bool)
    requires DistinctIds(WordsOf(t))
    ensures var es := TokenBlock(t, n, leftToRight);
      && DistinctElementIds(es)
      && forall e :: e in es ==> WordElementId(e.Id(), IdSet(WordsOf(t))) || GroupElementId(e.Id(), {n})
  {
    match t
    case Plain(w) =>
      CreateTokenIds(w, None, leftToRight);
      assert IdSet([w]) == {w.id};
    case Multiword(form, ws) =>
      var spId := ElementId(GroupPrefix, n);
      var group := Element(GroupNode(spId, GroupLabel(form, ws)), Unclassed);
      var members := MemberElements(ws, Some(spId), leftToRight);
      SplitElementId(GroupPrefix, n);
      PadSetMember(n, {n});
      MemberElementsIds(ws, Some(spId), leftToRight);
      PrependGroupIds(group, members, IdSet(ws), n);
  }

  /** A group node in front of word elements keeps all ids distinct. */
  lemma PrependGroupIds(group: Element, members: seq<Element>, ids: set<nat>, n: nat)
    requires GroupElementId(group.Id(), {n})
    requires DistinctElementIds(members) && forall e :: e in members ==> WordElementId(e.Id(), ids)
    ensures DistinctElementIds([group] + members)
    ensures forall e :: e in [group] + members ==> WordElementId(e.Id(), ids) || GroupElementId(e.Id(), {n})
  {
    forall x, y | x in [group] && y in members ensures x.Id() != y.Id() {
      SeparateIds(x.Id(), y.Id(), {}, ids, {n}, {});
    }
    DistinctConcat([group], members);
  }

  lemma {:induction false} BuildIds(sent: seq<Token>, n: nat, leftToRight: bool)
    requires NoEmptyMultiword(sent) && DistinctIds(AllWords(sent))
    ensures var es := Build(sent, n, leftToRight);
      && DistinctElementIds(es)
      && forall e :: e in es ==>
           WordElementId(e.Id(), IdSet(AllWords(sent))) || GroupElementId(e.Id(), Positions(n, |sent|))
  {
    if |sent| > 0 {
      var words, later := WordsOf(sent[0]), AllWords(sent[1..]);
      var block, rest := TokenBlock(sent[0], n, leftToRight), Build(sent[1..], n + 1, leftToRight);
      BuildCons(sent, n, leftToRight);
      DistinctIdsSplit(words, later);
      TokenBlockIds(sent[0], n, leftToRight);
      BuildIds(sent[1..], n + 1, leftToRight);
      assert IdSet(AllWords(sent)) == IdSet(words) + IdSet(later);
      assert Positions(n, |sent|) == {n} + Positions(n + 1, |sent| - 1);
      AppendBlockIds(block, rest, IdSet(words), IdSet(later), {n}, Positions(n + 1, |sent| - 1));
    }
  }

  /**
   * When no two words share an id, no two emitted elements share an id, so
   * every edge end names exactly one node.
   */
  lemma ConlluToCyDistinctIds(sent: seq<Token>, leftToRight: bool)
    requires NoEmptyMultiword(sent) && DistinctIds(AllWords(sent))
    ensures DistinctElementIds(ConlluToCy(sent, leftToRight).value)
  {
    BuildIds(sent, 0, leftToRight);
  }
}

module GraphBuilderGrouping {
  import opened Wrappers
  import opened Decimal
  import opened IdCodec
  import opened Subscript
  import opened Conllu
  import opened Graph
  import opened TokenElements
  import opened GraphBuilder

  /** `out` holds a word-form node for word id `id`, with the given parent and display form. */
  predicate HasWordNode(out: seq<Element>, id: nat, parent: Option<string>, form: string) {
    exists e :: e in out && e.data.WordNode? && e.Id() == ElementId(WordFormPrefix, id)
                && e.data.parent == parent && e.data.form == form
  }

  lemma TokenBlockInBuild(sent: seq<Token>, i: nat, leftToRight: bool, e: Element)
    requires NoEmptyMultiword(sent) && i < |sent|
    requires e in TokenBlock(sent[i], i, leftToRight)
    ensures e in Build(sent, 0, leftToRight)
  {
    var blocks := TokenBlocks(sent, 0, leftToRight);
    TokenBlocksIndex(sent, 0, leftToRight, i);
    assert e in blocks[i];
    FlattenMember(blocks, i, e);
  }

  lemma CreateTokenInMembers(ws: seq<Word>, parent: Option<string>, j: nat, leftToRight: bool, e: Element)
    requires j < |ws|
    requires e in CreateToken(ws[j], parent, leftToRight)
    ensures e in MemberElements(ws, parent, leftToRight)
  {
    WordBlocksIndex(ws, parent, leftToRight, j);
    FlattenMember(WordBlocks(ws, parent, leftToRight), j, e);
  }

  /** The word-form node of `w`: the first element `createToken` emits. */
  lemma WordNodeOfCreateToken(w: Word, parent: Option<string>, leftToRight: bool)
    ensures var e := CreateToken(w, parent, leftToRight)[0];
      && e in CreateToken(w, parent, leftToRight)
      && e.data.WordNode? && e.Id() == ElementId(WordFormPrefix, w.id)
      && e.data.parent == parent && e.data.form == DisplayForm(w, parent.Some?)
  {
    CreateTokenContents(w, parent, leftToRight);
  }

  /** Member `j` of the multiword token at position `i` has its word-form node in the output. */
  lemma MemberInBuild(sent: seq<Token>, leftToRight: bool, i: nat, j: nat)
    requires NoEmptyMultiword(sent) && i < |sent| && sent[i].Multiword? && j < |sent[i].members|
    ensures var w := sent[i].members[j];
      HasWordNode(Build(sent, 0, leftToRight), w.id, Some(ElementId(GroupPrefix, i)), w.lemmaForm.GetOr(" "))
  {
    var ws, spId := sent[i].members, ElementId(GroupPrefix, i);
    var group := Element(GroupNode(spId, GroupLabel(sent[i].form, ws)), Unclassed);
    WordNodeOfCreateToken(ws[j], Some(spId), leftToRight);
    var e := CreateToken(ws[j], Some(spId), leftToRight)[0];
    CreateTokenInMembers(ws, Some(spId), j, leftToRight, e);
    ConcatMember([group], MemberElements(ws, Some(spId), leftToRight), e);
    TokenBlockInBuild(sent, i, leftToRight, e);
  }

  /**
   * A multiword token at position i yields the group node `ns<i>`, labelled
   * with its surface form and the subscripted id range, and every member's
   * word-form node has that group as parent and shows the member's lemma
   * (a space when it has none).
   */
  lemma MultiwordGrouping(sent: seq<Token>, leftToRight: bool, i: nat)
    requires NoEmptyMultiword(sent) && i < |sent| && sent[i].Multiword?
    ensures var out := ConlluToCy(sent, leftToRight).value;
      var spId := ElementId(GroupPrefix, i);
      var ws := sent[i].members;
      && Element(GroupNode(spId, sent[i].form + ToSubscript(" (" + (Show(ws[0].id) + "-" + Show(ws[|ws| - 1].id)) + ")")),
                 Unclassed) in out
      && forall w :: w in ws ==> HasWordNode(out, w.id, Some(spId), w.lemmaForm.GetOr(" "))
  {
    var ws := sent[i].members;
    var block := TokenBlock(sent[i], i, leftToRight);
    assert block[0] in block;
    TokenBlockInBuild(sent, i, leftToRight, block[0]);
    forall w | w in ws
      ensures HasWordNode(Build(sent, 0, leftToRight), w.id, Some(ElementId(GroupPrefix, i)), w.lemmaForm.GetOr(" "))
    {
      var j :| 0 <= j < |ws| && ws[j] == w;
      MemberInBuild(sent, leftToRight, i, j);
    }
  }

  /** A plain token's word-form node has no parent and shows its form (a space when it has none). */
  lemma PlainUngrouped(sent: seq<Token>, leftToRight: bool, i: nat)
    requires NoEmptyMultiword(sent) && i < |sent| && sent[i].Plain?
    ensures HasWordNode(ConlluToCy(sent, leftToRight).value, sent[i].word.id, None, sent[i].word.form.GetOr(" "))
  {
    WordNodeOfCreateToken(sent[i].word, None, leftToRight);
    TokenBlockInBuild(sent, i, leftToRight, CreateToken(sent[i].word, None, leftToRight)[0]);
  }
}
