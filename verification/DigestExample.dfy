/**
 * The digest with the lengths of its real lines: notice rows by section, and a digest that exceeds
 * its budget by one token.
 */
module DigestExample {
  import opened Alignment
  import opened Digest

  /** The sections in tier order. */
  datatype Kind = Messages | Flows | Structs | Unresolved | Unmatched | Misc

  function Heading(k: Kind): string {
    match k
    case Messages => "## Message interfaces"
    case Flows => "## Cross-application message flows"
    case Structs => "## Structs (stubs \U{2014} call getStructLayout for field offsets)"
    case Unresolved => "## Unresolved and uncertain"
    case Unmatched => "## Unmatched calls (candidate messaging wrappers)"
    case Misc => "## Risks and IPC mechanisms"
  }

  function Label(k: Kind): string {
    match k
    case Messages => "MESSAGE INTERFACES"
    case Flows => "CROSS-APP FLOWS"
    case Structs => "STRUCTS"
    case Unresolved => "UNRESOLVED"
    case Unmatched => "UNMATCHED CALLS"
    case Misc => "RISKS AND IPC"
  }

  /** The tool that retrieves what a section leaves out. */
  function Via(k: Kind): string {
    match k
    case Messages => "searchMessages"
    case Flows => "getCrossAppEdges"
    case Structs => "getStructLayout"
    case Unresolved => "getPayloadResolutions"
    case Unmatched => "getUnknownCalls"
    case Misc => "getSourceLines"
  }

  const HEADER_LABEL := "APPLICATION PRODUCE/CONSUME LISTS"

  function Digits(n: nat): nat { if n < 10 then 1 else 1 + Digits(n / 10) }

  /** Length of `- <name>: <count> entries <reason> \U{2014} retrieve via <tool>`. */
  function RowWith(name: nat, count: nat, reason: Reason, via: nat): nat {
    2 + name + 2 + Digits(count) + 9 + (if reason.Budget? then 34 else 24) + 16 + via
  }

  /** The notice row of an omission, for the sections emitted; section 0 is the header's lists. */
  function NoticeRow(kinds: seq<Kind>): Omission -> nat {
    (o: Omission) =>
      if 1 <= o.section <= |kinds| then
        RowWith(LabelLength(kinds[o.section - 1]), o.count, o.reason, ViaLength(kinds[o.section - 1]))
      else RowWith(33, o.count, o.reason, 16)
  }

  function LabelLength(k: Kind): nat {
    match k
    case Messages => 18
    case Flows => 15
    case Structs => 7
    case Unresolved => 10
    case Unmatched => 15
    case Misc => 13
  }

  function ViaLength(k: Kind): nat {
    match k
    case Messages => 14
    case Flows => 16
    case Structs => 15
    case Unresolved => 21
    case Unmatched => 15
    case Misc => 14
  }

  lemma LengthsAreReal(k: Kind)
    ensures LabelLength(k) == |Label(k)| && ViaLength(k) == |Via(k)| && |HEADER_LABEL| == 33
  {
  }

  /** A count of at most `p` digits. */
  lemma {:induction false} DigitsBound(n: nat, p: nat)
    requires p >= 1 && n < Power(p)
    ensures Digits(n) <= p
  {
    if n >= 10 { DigitsBound(n / 10, p - 1); }
  }

  function Power(p: nat): nat { if p == 0 then 1 else 10 * Power(p - 1) }

  /** With counts below a billion no notice row is longer than 121 characters. */
  lemma {:induction false} RowsAtMost121(kinds: seq<Kind>, o: Omission)
    requires o.count < Power(9)
    ensures NoticeRow(kinds)(o) <= 121
  {
    DigitsBound(o.count, 9);
    if 1 <= o.section <= |kinds| {
      RowBound(LabelLength(kinds[o.section - 1]), o.count, o.reason, ViaLength(kinds[o.section - 1]));
    }
  }

  lemma {:induction false} RowBound(name: nat, count: nat, reason: Reason, via: nat)
    requires name + via <= 49 && Digits(count) <= 9
    ensures RowWith(name, count, reason, via) <= 121
  {
  }

  /**
   * With the real rows, and lists shorter than a billion: if the reserve has room for the rows the input
   * can produce, the digest stays within the budget exactly if what is never dropped does.
   */
  lemma RealRowsExactly(h: Header, sections: seq<Section>, kinds: seq<Kind>, budget: nat)
    requires Buildable(h, sections) && ListsAtMost(h, sections, Power(9) - 1)
    requires RoomForRows(MostRows(h, sections), 121, budget)
    ensures var d := DigestOf(h, sections, budget, NoticeRow(kinds));
            d.estimatedTokens <= budget <==> FloorFits(h, sections, budget, NoticeRow(kinds))
  {
    forall o: Omission | o.count <= Power(9) - 1 ensures NoticeRow(kinds)(o) <= 121 { RowsAtMost121(kinds, o); }
    WithinBudgetExactly(h, sections, budget, NoticeRow(kinds), Power(9) - 1, 121);
  }

  /** From 3280 tokens on there is room for every row there can be. */
  lemma LargeBudgetsExactly(h: Header, sections: seq<Section>, kinds: seq<Kind>, budget: nat)
    requires Buildable(h, sections) && ListsAtMost(h, sections, Power(9) - 1) && budget >= 3280
    ensures var d := DigestOf(h, sections, budget, NoticeRow(kinds));
            d.estimatedTokens <= budget <==> FloorFits(h, sections, budget, NoticeRow(kinds))
  {
    MoreRows(MostRows(h, sections), 8, 121);
    RealRowsExactly(h, sections, kinds, budget);
  }

  // ---- Below that the budget can be exceeded ---------------------------------------------------------

  /**
   * An application with one message, sent and received over a message queue by one source file: the
   * lengths of its name, the constant, and the struct it resolves to, a single `int x`. Files are named
   * after a two-letter application, so they take four characters.
   */
  datatype App = App(name: nat, constant: nat, struct: nat)

  /** `- N: 1 source files, 1 message interfaces, 1 structs | layout target 64bit`. */
  function InventoryRow(a: App): nat { 73 + a.name }

  /** `    produces: C`, and the same for `consumes`. */
  function ListRow(a: App): nat { 14 + a.constant }

  /** `- [N] C = 1 | S | both | mqueue 4B/64 4B/32 | def:H | P:F | C:F`. */
  function MessageRow(a: App): nat { 69 + a.name + a.constant + a.struct }

  /** `    = x`. */
  const COMPOSITION_ROW: nat := 7

  /** `- N -> N : C`. */
  function FlowRow(a: App): nat { 9 + 2 * a.name + a.constant }

  /** `- [N] S (4B, 1 fields, wire-root, H)`. */
  function StubRow(a: App): nat { 37 + a.name + a.struct }

  /** `- [N] IPC mechanisms: mqueue`. */
  function IpcRow(a: App): nat { 27 + a.name }

  const FIRST := App(2, 242, 1)
  const REST := App(2, 240, 1)
  const LAST := App(2, 240, 2)

  const LISTS: seq<nat> := [256, 256, 254, 254, 254, 254, 254, 254, 254, 254]
  const HEADER := Header([75, 75, 75, 75, 75], LISTS, None)

  /** The legend of two lines counts among the entries of the first section. */
  const MESSAGES := Section(21, [104, 98, 314, 7, 312, 7, 312, 7, 312, 7, 313, 7], None)
  const FLOWS := Section(34, [255, 253, 253, 253, 253], None)
  const STRUCTS := Section(59, [40, 40, 40, 40, 41], None)
  const MISC := Section(27, [29, 29, 29, 29, 29], None)
  const SECTIONS: seq<Section> := [MESSAGES, FLOWS, STRUCTS, MISC]
  const KINDS: seq<Kind> := [Messages, Flows, Structs, Misc]

  /** The numbers are those of five such applications. */
  lemma ExampleIsReal()
    ensures HEADER.inventory == [InventoryRow(FIRST), InventoryRow(REST), InventoryRow(REST), InventoryRow(REST),
                                 InventoryRow(LAST)]
    ensures LISTS == [ListRow(FIRST), ListRow(FIRST), ListRow(REST), ListRow(REST), ListRow(REST), ListRow(REST),
                      ListRow(REST), ListRow(REST), ListRow(LAST), ListRow(LAST)]
    ensures MESSAGES.entries == [104, 98, MessageRow(FIRST), COMPOSITION_ROW, MessageRow(REST), COMPOSITION_ROW,
                                 MessageRow(REST), COMPOSITION_ROW, MessageRow(REST), COMPOSITION_ROW,
                                 MessageRow(LAST), COMPOSITION_ROW]
    ensures FLOWS.entries == [FlowRow(FIRST), FlowRow(REST), FlowRow(REST), FlowRow(REST), FlowRow(LAST)]
    ensures STRUCTS.entries == [StubRow(FIRST), StubRow(REST), StubRow(REST), StubRow(REST), StubRow(LAST)]
    ensures MISC.entries == [IpcRow(FIRST), IpcRow(REST), IpcRow(REST), IpcRow(REST), IpcRow(LAST)]
  {
  }

  lemma HeadingsAreReal()
    ensures MESSAGES.head == |Heading(Messages)| && FLOWS.head == |Heading(Flows)|
    ensures STRUCTS.head == |Heading(Structs)| && MISC.head == |Heading(Misc)|
  {
  }

  lemma SumFour(a: nat, b: nat, c: nat, d: nat)
    ensures Sum([a, b, c, d]) == a + b + c + d && Sum([a, b, c]) == a + b + c && Sum([a, b]) == a + b && Sum([a]) == a
  {
    assert [a][..0] == [];
    assert [a, b][..1] == [a];
    assert [a, b, c][..2] == [a, b];
    assert [a, b, c, d][..3] == [a, b, c];
    assert Sum([a, b]) == Sum([a]) + b;
    assert Sum([a, b, c]) == Sum([a, b]) + c;
  }

  lemma {:induction false} SumSplit(whole: seq<nat>, a: seq<nat>, b: seq<nat>)
    requires whole == a + b
    ensures Sum(whole) == Sum(a) + Sum(b)
  {
    SumAppend(a, b);
  }

  lemma HeaderIs420()
    ensures Sum(HeaderLines(HEADER)) == 412 && |HeaderLines(HEADER)| == 8
    ensures !DetailFits(HEADER, 800) && HeaderLength(HEADER, 800) == 420
  {
    var lines := HeaderLines(HEADER);
    SumFour(22, 0, 15, 75);
    SumFour(75, 75, 75, 75);
    SumSplit(lines, [22, 0, 15, 75], [75, 75, 75, 75]);
    SumFour(256, 256, 254, 254);
    SumFour(254, 254, 254, 254);
    SumFour(254, 254, 0, 0);
    SumSplit(LISTS, [256, 256, 254, 254] + [254, 254, 254, 254], [254, 254]);
    SumSplit([256, 256, 254, 254] + [254, 254, 254, 254], [256, 256, 254, 254], [254, 254, 254, 254]);
    SumSplit(lines + LISTS, lines, LISTS);
    assert lines + [] + [] == lines;
  }

  lemma MessagesBody()
    ensures BodyLength(21, MESSAGES.entries) == 1834
  {
    SumFour(21, 104, 98, 314);
    SumFour(7, 312, 7, 312);
    SumFour(7, 312, 7, 313);
    SumFour(7, 0, 0, 0);
    SumSplit([21] + MESSAGES.entries, [21, 104, 98, 314] + [7, 312, 7, 312], [7, 312, 7, 313] + [7]);
    SumSplit([21, 104, 98, 314] + [7, 312, 7, 312], [21, 104, 98, 314], [7, 312, 7, 312]);
    SumSplit([7, 312, 7, 313] + [7], [7, 312, 7, 313], [7]);
  }

  lemma StructsBody()
    ensures BodyLength(59, STRUCTS.entries) == 266
  {
    SumFour(59, 40, 40, 40);
    SumFour(40, 41, 0, 0);
    SumSplit([59] + STRUCTS.entries, [59, 40, 40, 40], [40, 41]);
  }

  lemma FlowsBody()
    ensures BodyLength(34, FLOWS.entries) == 1307 && FitCount(FLOWS.entries, 654, 720) == 0
  {
    SumFour(34, 255, 253, 253);
    SumFour(253, 253, 0, 0);
    SumSplit([34] + FLOWS.entries, [34, 255, 253, 253], [253, 253]);
  }

  lemma MiscBody()
    ensures BodyLength(27, MISC.entries) == 178 && FitCount(MISC.entries, 728, 720) == 0
  {
    SumFour(27, 29, 29, 29);
    SumFour(29, 29, 0, 0);
    SumSplit([27] + MISC.entries, [27, 29, 29, 29], [29, 29]);
  }

  const KEPT: seq<seq<nat>> := [MESSAGES.entries, [], STRUCTS.entries, []]

  /** The header and two sections take the fill budget to the last token; the other two have no room at all. */
  lemma ExampleFilled()
    ensures Filled(HEADER, SECTIONS, 800) == Fill(720, [420, 1834, 266], KEPT)
  {
    HeaderIs420();
    MessagesBody();
    FlowsBody();
    StructsBody();
    MiscBody();
    var start := Fill(120, [420], []);
    var one, two := Fill(644, [420, 1834], [MESSAGES.entries]), Fill(644, [420, 1834], [MESSAGES.entries, []]);
    var three := Fill(720, [420, 1834, 266], [MESSAGES.entries, [], STRUCTS.entries]);
    assert FillOne(start, MESSAGES, 720) == one;
    assert FLOWS.entries[..0] == [];
    assert FillOne(one, FLOWS, 720) == two;
    assert FillOne(two, STRUCTS, 720) == three;
    assert MISC.entries[..0] == [];
    assert FillOne(three, MISC, 720) == Fill(720, [420, 1834, 266], KEPT);
    FillFour(start, MESSAGES, FLOWS, STRUCTS, MISC, 720);
  }

  lemma {:induction false} FillFour(start: Fill, a: Section, b: Section, c: Section, d: Section, fill: nat)
    ensures FillAll(start, [a, b, c, d], fill)
         == FillOne(FillOne(FillOne(FillOne(start, a, fill), b, fill), c, fill), d, fill)
  {
    assert [a][..0] == [] && [a, b][..1] == [a] && [a, b, c][..2] == [a, b] && [a, b, c, d][..3] == [a, b, c];
    assert FillAll(start, [a], fill) == FillLast(start, [a], fill);
    assert FillAll(start, [a, b], fill) == FillLast(start, [a, b], fill);
    assert FillAll(start, [a, b, c], fill) == FillLast(start, [a, b, c], fill);
    assert FillAll(start, [a, b, c, d], fill) == FillLast(start, [a, b, c, d], fill);
  }

  const OMITTED: seq<Omission> := [Omission(0, 10, Budget), Omission(2, 5, Budget), Omission(4, 5, Budget)]

  lemma ExampleOmits()
    ensures HeaderOmission(HEADER, 800) + Omissions(SECTIONS, KEPT) == OMITTED
  {
    HeaderIs420();
    OmissionsOfFour(MESSAGES, FLOWS, STRUCTS, MISC, KEPT);
    assert OmissionsOf(1, MESSAGES, KEPT[0]) == [] && OmissionsOf(3, STRUCTS, KEPT[2]) == [];
  }

  lemma {:induction false} OmissionsOfFour(a: Section, b: Section, c: Section, d: Section, kept: seq<seq<nat>>)
    requires |kept| == 4
    ensures Omissions([a, b, c, d], kept)
         == OmissionsOf(1, a, kept[0]) + OmissionsOf(2, b, kept[1]) + OmissionsOf(3, c, kept[2]) + OmissionsOf(4, d, kept[3])
  {
    assert [a, b, c, d][..3] == [a, b, c] && [a, b, c][..2] == [a, b] && [a, b][..1] == [a] && [a][..0] == [];
    assert kept[..3][..2] == kept[..2] && kept[..2][..1] == kept[..1] && kept[..1][..0] == [];
    assert Omissions([a], kept[..1]) == OmissionsOf(1, a, kept[0]);
    assert Omissions([a, b], kept[..2]) == OmissionsOf(1, a, kept[0]) + OmissionsOf(2, b, kept[1]);
  }

  lemma {:induction false} ThreeRows(a: Omission, b: Omission, c: Omission, rowLength: Omission -> nat)
    ensures RowLengths([a, b, c], rowLength) == [rowLength(a), rowLength(b), rowLength(c)]
  {
    assert [a, b, c][..2] == [a, b] && [a, b][..1] == [a] && [a][..0] == [];
    assert RowLengths([a], rowLength) == [rowLength(a)];
    assert RowLengths([a, b], rowLength) == [rowLength(a), rowLength(b)];
  }

  /** The notice keeps the first of three rows if that fits and no further one does. */
  lemma {:induction false} FirstRowStays(a: nat, b: nat, c: nat, reserve: nat)
    requires Tokens(166 + a) <= reserve < Tokens(167 + a + b)
    ensures NoticeLength([a, b, c], reserve) == 166 + a
  {
    SumFour(a, b, c, 0);
    NoticeSum([a, b, c]);
    NoticeSum([a, b]);
    NoticeSum([a]);
    assert [a, b, c][..2] == [a, b] && [a, b][..1] == [a];
    assert TrimmedRows([a], reserve) == [a];
    assert TrimmedRows([a, b], reserve) == [a];
  }

  /** The rows together miss the reserve, so the last two are trimmed; the first takes it to the last token. */
  lemma ExampleNotice()
    ensures NoticeLength(RowLengths(OMITTED, NoticeRow(KINDS)), 80) == 280
  {
    ThreeRows(OMITTED[0], OMITTED[1], OMITTED[2], NoticeRow(KINDS));
    FirstRowStays(114, 95, 91, 80);
  }

  /**
   * A digest over its budget: the header and the sections fill their share exactly, the notice fills
   * the reserve exactly, and the line feeds that join them come on top.
   */
  lemma BudgetCanBeExceeded()
    ensures Buildable(HEADER, SECTIONS) && Tokens(HeaderLength(HEADER, 800)) <= FillBudget(800)
    ensures DigestOf(HEADER, SECTIONS, 800, NoticeRow(KINDS)).estimatedTokens == 801
  {
    HeaderIs420();
    ExampleFilled();
    ExampleOmits();
    ExampleNotice();
    SumFour(420, 1834, 266, 280);
    assert [420, 1834, 266] + [280] == [420, 1834, 266, 280];
    NoneOverflow(MESSAGES, FLOWS, STRUCTS, MISC);
  }

  lemma NoneOverflow(a: Section, b: Section, c: Section, d: Section)
    requires a.overflow == None && b.overflow == None && c.overflow == None && d.overflow == None
    ensures OverflowCount([a, b, c, d]) == 0
  {
    assert [a][..0] == [] && [a, b][..1] == [a] && [a, b, c][..2] == [a, b] && [a, b, c, d][..3] == [a, b, c];
    assert OverflowCount([a]) == 0;
    assert OverflowCount([a, b]) == 0;
    assert OverflowCount([a, b, c]) == 0;
  }
}
