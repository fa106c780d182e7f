/**
 * Node placement: the grid layout (`formLayout`), the three node comparators
 * it can be given (`simpleIdSorting`, `rtlSorting`, `vertAlSort`) and the
 * numeric part of the drawing-box size (`changeBoxSize`).
 *
 * A comparator returns a negative number when its first node goes first.
 */
module Layout {
  import opened Decimal
  import opened IdCodec
  import opened LexOrder
  import opened Graph
  import opened Conllu

  function Sign(x: int): int {
    if x < 0 then -1 else if x > 0 then 1 else 0
  }

  // ---------------------------------------------------------------------------
  // simpleIdSorting

  /** `simpleIdSorting`: JavaScript string order of the two ids. */
  function SimpleIdSorting(n1: Element, n2: Element): (r: int)
    ensures r == -1 <==> Less(n1.Id(), n2.Id())
    ensures r == 1 <==> Less(n2.Id(), n1.Id())
    ensures r == 0 <==> n1.Id() == n2.Id()
  {
    Connected(n1.Id(), n2.Id());
    Irreflexive(n1.Id());
    Asymmetric(n1.Id(), n2.Id());
    if Less(n1.Id(), n2.Id()) then -1
    else if Less(n2.Id(), n1.Id()) then 1
    else 0
  }

  lemma SimpleIdAntisymmetric(a: Element, b: Element)
    ensures SimpleIdSorting(a, b) == -SimpleIdSorting(b, a)
  {
  }

  lemma SimpleIdTransitive(a: Element, b: Element, c: Element)
    ensures SimpleIdSorting(a, b) < 0 && SimpleIdSorting(b, c) < 0 ==> SimpleIdSorting(a, c) < 0
  {
    Transitive(a.Id(), b.Id(), c.Id());
  }

  /** Element ids with the same prefix compare as their padded numbers do. */
  lemma SamePrefixOrder(p: string, i: nat, j: nat)
    requires |p| == 2 && i < 100 && j < 100
    ensures Less(ElementId(p, i), ElementId(p, j)) <==> i < j
  {
    CommonPrefix(p, StrWithZero(i), StrWithZero(j));
    StrWithZeroOrder(i, j);
  }

  /** Word-form nodes of words below 100 are placed in increasing word order. */
  lemma SimpleIdWordOrder(a: Element, b: Element, i: nat, j: nat)
    requires i < 100 && j < 100
    requires a.Id() == ElementId(WordFormPrefix, i) && b.Id() == ElementId(WordFormPrefix, j)
    ensures SimpleIdSorting(a, b) < 0 <==> i < j
  {
    SamePrefixOrder(WordFormPrefix, i, j);
  }

  /** Every word-form node goes before every POS node ("nf" is below "np"). */
  lemma SimpleIdWordsBeforePos(a: Element, b: Element, i: nat, j: nat)
    requires a.Id() == ElementId(WordFormPrefix, i) && b.Id() == ElementId(PosPrefix, j)
    ensures SimpleIdSorting(a, b) == -1
  {
    var x, y := a.Id(), b.Id();
    SplitElementId(WordFormPrefix, i);
    SplitElementId(PosPrefix, j);
    assert x[..2] == "nf" && y[..2] == "np";
    assert x[0] == y[0] && x[1..][0] == 'f' && y[1..][0] == 'p';
    assert Less(x[1..], y[1..]);
  }

  /** The padding stops matching numeric order at three digits: word 100 goes before word 99. */
  lemma SimpleIdOrderBreaksAt100(a: Element, b: Element)
    requires a.Id() == ElementId(WordFormPrefix, 99) && b.Id() == ElementId(WordFormPrefix, 100)
    ensures SimpleIdSorting(b, a) == -1
  {
    assert StrWithZero(99) == "99" by {
      assert Show(99) == Show(9) + [DigitChar(9)];
    }
    assert StrWithZero(100) == "100" by {
      assert Show(100) == Show(10) + [DigitChar(0)];
      assert Show(10) == Show(1) + [DigitChar(0)];
    }
    CommonPrefix(WordFormPrefix, "100", "99");
  }

  // ---------------------------------------------------------------------------
  // rtlSorting

  /**
   * `rtlSorting`: two word-form nodes or two POS nodes in reverse id order,
   * a word-form node before a POS node, and every other pair tied.
   */
  function RtlSorting(n1: Element, n2: Element): (r: int)
    ensures -1 <= r <= 1
  {
    if (n1.HasClass(Wf) && n2.HasClass(Wf)) || (n1.HasClass(Pos) && n2.HasClass(Pos)) then
      SimpleIdSorting(n1, n2) * -1
    else if n1.HasClass(Wf) && n2.HasClass(Pos) then -1
    else if n1.HasClass(Pos) && n2.HasClass(Wf) then 1
    else 0
  }

  lemma RtlAntisymmetric(a: Element, b: Element)
    ensures RtlSorting(a, b) == -RtlSorting(b, a)
  {
    SimpleIdAntisymmetric(a, b);
  }

  /** Word-form nodes of words below 100 are placed in decreasing word order. */
  lemma RtlWordOrder(a: Element, b: Element, i: nat, j: nat)
    requires a.HasClass(Wf) && b.HasClass(Wf) && i < 100 && j < 100
    requires a.Id() == ElementId(WordFormPrefix, i) && b.Id() == ElementId(WordFormPrefix, j)
    ensures RtlSorting(a, b) < 0 <==> j < i
  {
    SamePrefixOrder(WordFormPrefix, j, i);
  }

  /** The rank a word-form (0) or POS (1) node has among nodes of both kinds. */
  function KindRank(e: Element): nat
    requires e.HasClass(Wf) || e.HasClass(Pos)
  {
    if e.HasClass(Wf) then 0 else 1
  }

  /**
   * On word-form and POS nodes the comparator is the order "kind first
   * (word forms before POS), then id descending", so it is a strict order there.
   */
  lemma RtlKeyOrder(a: Element, b: Element)
    requires a.HasClass(Wf) || a.HasClass(Pos)
    requires b.HasClass(Wf) || b.HasClass(Pos)
    ensures RtlSorting(a, b) < 0
        <==> KindRank(a) < KindRank(b) || (KindRank(a) == KindRank(b) && Less(b.Id(), a.Id()))
    ensures RtlSorting(a, b) == 0 <==> KindRank(a) == KindRank(b) && a.Id() == b.Id()
  {
  }

  lemma RtlTransitive(a: Element, b: Element, c: Element)
    requires a.HasClass(Wf) || a.HasClass(Pos)
    requires b.HasClass(Wf) || b.HasClass(Pos)
    requires c.HasClass(Wf) || c.HasClass(Pos)
    ensures RtlSorting(a, b) < 0 && RtlSorting(b, c) < 0 ==> RtlSorting(a, c) < 0
  {
    RtlKeyOrder(a, b);
    RtlKeyOrder(b, c);
    RtlKeyOrder(a, c);
    Transitive(c.Id(), b.Id(), a.Id());
  }

  /** A node of any other kind (a multiword group node) ties with every node. */
  lemma RtlOtherTies(a: Element, b: Element)
    requires !a.HasClass(Wf) && !a.HasClass(Pos)
    ensures RtlSorting(a, b) == 0 && RtlSorting(b, a) == 0
  {
  }

  // ---------------------------------------------------------------------------
  // vertAlSort

  /** A node whose id ends in digits only, as every element id does. */
  predicate Numbered(e: Element) {
    AllDigits(Suffix(e.Id()))
  }

  /** The number an element id carries after its prefix. */
  function Number(e: Element): nat
    requires Numbered(e)
  {
    NumberOf(e.Id())
  }

  /**
   * `vertAlSort`: by the number after the prefix; for the same number a POS
   * node goes before the word-form node, and every other pair ties.
   */
  function VertAlSort(n1: Element, n2: Element): (r: int)
    requires Numbered(n1) && Numbered(n2)
    ensures Number(n1) != Number(n2) ==> Sign(r) == Sign(Number(n1) - Number(n2))
    ensures Number(n1) == Number(n2) ==> -1 <= r <= 1
  {
    var num1, num2 := NumberOf(n1.Id()), NumberOf(n2.Id());
    if num1 != num2 then num1 - num2
    else if n1.HasClass(Wf) && n2.HasClass(Pos) then 1
    else if n1.HasClass(Pos) && n2.HasClass(Wf) then -1
    else 0
  }

  lemma VertAlAntisymmetric(a: Element, b: Element)
    requires Numbered(a) && Numbered(b)
    ensures VertAlSort(a, b) == -VertAlSort(b, a)
  {
  }

  /** The number read from an element id is the token id or position it was made from. */
  lemma NumberOfElementId(e: Element, p: string, n: nat)
    requires |p| == 2 && e.Id() == ElementId(p, n)
    ensures Numbered(e) && Number(e) == n
  {
    DecodeElementId(p, n);
  }

  /** Word-form nodes are placed in increasing word order, at any size. */
  lemma VertAlWordOrder(a: Element, b: Element, i: nat, j: nat)
    requires a.HasClass(Wf) && b.HasClass(Wf)
    requires a.Id() == ElementId(WordFormPrefix, i) && b.Id() == ElementId(WordFormPrefix, j)
    ensures Numbered(a) && Numbered(b)
    ensures VertAlSort(a, b) < 0 <==> i < j
  {
    NumberOfElementId(a, WordFormPrefix, i);
    NumberOfElementId(b, WordFormPrefix, j);
  }

  /** The POS node of a word goes just before its word-form node. */
  lemma VertAlPosBeforeWord(a: Element, b: Element, i: nat)
    requires a.HasClass(Pos) && b.HasClass(Wf)
    requires a.Id() == ElementId(PosPrefix, i) && b.Id() == ElementId(WordFormPrefix, i)
    ensures Numbered(a) && Numbered(b)
    ensures VertAlSort(a, b) == -1
  {
    NumberOfElementId(a, PosPrefix, i);
    NumberOfElementId(b, WordFormPrefix, i);
  }

  /**
   * A group node ties with the word-form node and the POS node of the same
   * number, which do not tie with each other, so the comparator is no order
   * once group nodes take part.
   */
  lemma VertAlGroupTies(g: Element, a: Element, b: Element, i: nat)
    requires g.HasClass(Unclassed) && a.HasClass(Pos) && b.HasClass(Wf)
    requires g.Id() == ElementId(GroupPrefix, i)
    requires a.Id() == ElementId(PosPrefix, i) && b.Id() == ElementId(WordFormPrefix, i)
    ensures Numbered(g) && Numbered(a) && Numbered(b)
    ensures VertAlSort(g, a) == 0 && VertAlSort(g, b) == 0 && VertAlSort(a, b) == -1
  {
    NumberOfElementId(g, GroupPrefix, i);
    NumberOfElementId(a, PosPrefix, i);
    NumberOfElementId(b, WordFormPrefix, i);
  }

  /**
   * On word-form and POS nodes the comparator is the order "number first,
   * then POS before word form", so it is a strict order there.
   */
  lemma VertAlKeyOrder(a: Element, b: Element)
    requires Numbered(a) && Numbered(b)
    requires a.HasClass(Wf) || a.HasClass(Pos)
    requires b.HasClass(Wf) || b.HasClass(Pos)
    ensures VertAlSort(a, b) < 0
        <==> Number(a) < Number(b) || (Number(a) == Number(b) && KindRank(a) > KindRank(b))
    ensures VertAlSort(a, b) == 0 <==> Number(a) == Number(b) && KindRank(a) == KindRank(b)
  {
  }

  lemma VertAlTransitive(a: Element, b: Element, c: Element)
    requires Numbered(a) && Numbered(b) && Numbered(c)
    requires a.HasClass(Wf) || a.HasClass(Pos)
    requires b.HasClass(Wf) || b.HasClass(Pos)
    requires c.HasClass(Wf) || c.HasClass(Pos)
    ensures VertAlSort(a, b) < 0 && VertAlSort(b, c) < 0 ==> VertAlSort(a, c) < 0
  {
    VertAlKeyOrder(a, b);
    VertAlKeyOrder(b, c);
    VertAlKeyOrder(a, c);
  }

  // ---------------------------------------------------------------------------
  // formLayout

  datatype Grid = Rows(rows: nat) | Cols(cols: nat)

  /** Which of the three comparators the layout sorts nodes with. */
  datatype Sorter = ById | RightToLeft | VerticalAligned

  datatype GridLayout = GridLayout(name: string, condense: bool, grid: Grid, sort: Sorter)

  /** Apply a layout's comparator. */
  function Compare(s: Sorter, n1: Element, n2: Element): int
    requires s.VerticalAligned? ==> Numbered(n1) && Numbered(n2)
  {
    match s
    case ById => SimpleIdSorting(n1, n2)
    case RightToLeft => RtlSorting(n1, n2)
    case VerticalAligned => VertAlSort(n1, n2)
  }

  /** `formLayout`: a condensed grid of two columns (vertical) or two rows. */
  function FormLayout(vertical: bool, leftToRight: bool): (r: GridLayout)
    ensures r.name == "grid" && r.condense
    ensures vertical <==> r.grid.Cols?
    ensures r.grid.Cols? ==> r.grid.cols == 2
    ensures r.grid.Rows? ==> r.grid.rows == 2
  {
    if vertical then GridLayout("grid", true, Cols(2), VerticalAligned)
    else GridLayout("grid", true, Rows(2), if leftToRight then ById else RightToLeft)
  }

  /**
   * Word-form nodes of words below 100 are placed in word order: increasing,
   * except in the horizontal right-to-left layout, where it is decreasing.
   */
  lemma FormLayoutWordOrder(vertical: bool, leftToRight: bool, a: Element, b: Element, i: nat, j: nat)
    requires a.HasClass(Wf) && b.HasClass(Wf) && i < 100 && j < 100
    requires a.Id() == ElementId(WordFormPrefix, i) && b.Id() == ElementId(WordFormPrefix, j)
    ensures Numbered(a) && Numbered(b)
    ensures Compare(FormLayout(vertical, leftToRight).sort, a, b) < 0
        <==> if !vertical && !leftToRight then j < i else i < j
  {
    NumberOfElementId(a, WordFormPrefix, i);
    NumberOfElementId(b, WordFormPrefix, j);
    if vertical {
      VertAlWordOrder(a, b, i, j);
    } else if leftToRight {
      SimpleIdWordOrder(a, b, i, j);
    } else {
      RtlWordOrder(a, b, i, j);
    }
  }

  /**
   * In the two-column layout a word's POS node goes right before its
   * word-form node, which neither two-row comparator does.
   */
  lemma FormLayoutVerticalPosFirst(leftToRight: bool, a: Element, b: Element, i: nat)
    requires a.HasClass(Pos) && b.HasClass(Wf)
    requires a.Id() == ElementId(PosPrefix, i) && b.Id() == ElementId(WordFormPrefix, i)
    ensures Numbered(a) && Numbered(b)
    ensures Compare(FormLayout(true, leftToRight).sort, a, b) == -1
  {
    VertAlPosBeforeWord(a, b, i);
  }

  /** In both two-row layouts every word-form node goes before every POS node. */
  lemma FormLayoutWordsFirst(leftToRight: bool, a: Element, b: Element, i: nat, j: nat)
    requires a.HasClass(Wf) && b.HasClass(Pos)
    requires a.Id() == ElementId(WordFormPrefix, i) && b.Id() == ElementId(PosPrefix, j)
    ensures Compare(FormLayout(false, leftToRight).sort, a, b) == -1
  {
    SimpleIdWordsBeforePos(a, b, i, j);
  }

  // ---------------------------------------------------------------------------
  // changeBoxSize

  const MinWidth: nat := 500
  const MaxWidth: nat := 1700
  const TokenWidth: nat := 150
  const RowHeight: nat := 50
  const FixedHeight: nat := 400

  /** Pixel size of the drawing box. */
  datatype Size = Size(width: nat, height: nat)

  /** `changeBoxSize` for a sentence of `count` top-level tokens. */
  function BoxSize(count: nat, vertical: bool): (r: Size)
    ensures vertical ==> r.width == MaxWidth && r.height == RowHeight * count
    ensures !vertical ==> r.height == FixedHeight && MinWidth <= r.width <= MaxWidth
    ensures !vertical && MinWidth <= TokenWidth * count <= MaxWidth ==> r.width == TokenWidth * count
  {
    if vertical then Size(MaxWidth, count * RowHeight)
    else
      var width := count * TokenWidth;
      Size(if width < MinWidth then MinWidth else if width > MaxWidth then MaxWidth else width, FixedHeight)
  }

  /** `changeBoxSize` for a sentence: it counts top-level tokens, so a multiword token counts once. */
  function ChangeBoxSize(sent: seq<Token>, vertical: bool): (r: Size)
    ensures vertical ==> r.height == RowHeight * |sent|
    ensures !vertical && MinWidth <= TokenWidth * |sent| <= MaxWidth ==> r.width == TokenWidth * |sent|
  {
    BoxSize(|sent|, vertical)
  }

  /** Which words a token holds does not matter: replacing one token by another keeps the size. */
  lemma BoxSizeIgnoresMembers(sent: seq<Token>, i: nat, t: Token, vertical: bool)
    requires i < |sent|
    ensures ChangeBoxSize(sent[i := t], vertical) == ChangeBoxSize(sent, vertical)
  {
  }

  /** A longer sentence never gets a smaller box. */
  lemma BoxSizeMonotone(c1: nat, c2: nat, vertical: bool)
    requires c1 <= c2
    ensures BoxSize(c1, vertical).width <= BoxSize(c2, vertical).width
    ensures BoxSize(c1, vertical).height <= BoxSize(c2, vertical).height
  {
  }

  /** The vertical box grows by one row height per token. */
  lemma VerticalBoxGrows(count: nat)
    ensures BoxSize(count + 1, true).height == BoxSize(count, true).height + RowHeight
  {
  }

  /** Three tokens or fewer get the minimum width, twelve or more the maximum. */
  lemma BoxSizeClamp(count: nat)
    ensures count <= 3 ==> BoxSize(count, false).width == MinWidth
    ensures count >= 12 ==> BoxSize(count, false).width == MaxWidth
  {
  }

  lemma BoxSizeExamples()
    ensures BoxSize(4, false) == Size(600, 400)
    ensures BoxSize(1, false) == Size(500, 400)
    ensures BoxSize(20, false) == Size(1700, 400)
    ensures BoxSize(10, true) == Size(1700, 500)
  {
  }
}
