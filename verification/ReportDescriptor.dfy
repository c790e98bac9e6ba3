/** The HID report-descriptor item machine (USB HID 1.11, section 6.2.2). */
module ReportDescriptor {
  import opened Types

  datatype ReportKind = Keyboard | Mouse | Consumer

  datatype UsagePage =
    | GenericDesktop
    | KeyboardPage
    | Led
    | Button
    | ConsumerPage
    | Unknown(code: int)

  function UsagePageFrom(code: u16): UsagePage {
    match code
    case 0x01 => GenericDesktop
    case 0x07 => KeyboardPage
    case 0x08 => Led
    case 0x09 => Button
    case 0x0C => ConsumerPage
    case other => Unknown(other)
  }

  const USAGE_POINTER: u16 := 0x01
  const USAGE_MOUSE: u16 := 0x02

  /** What the parser reports: which kinds of input exist, and under which report IDs. */
  datatype HidDescriptor = HidDescriptor(
    hasKeyboard: bool, hasMouse: bool, hasConsumer: bool,
    keyboardId: Option<u8>, mouseId: Option<u8>, consumerId: Option<u8>)

  const EMPTY: HidDescriptor := HidDescriptor(false, false, false, None, None, None)

  predicate Has(d: HidDescriptor, kind: ReportKind) {
    match kind
    case Keyboard => d.hasKeyboard
    case Mouse => d.hasMouse
    case Consumer => d.hasConsumer
  }

  function IdOf(d: HidDescriptor, kind: ReportKind): Option<u8> {
    match kind
    case Keyboard => d.keyboardId
    case Mouse => d.mouseId
    case Consumer => d.consumerId
  }

  // ─── Items ─────────────────────────────────────────────────────────────────

  /** An item: its type (0 main, 1 global, 2 local, 3 reserved), tag and data value. */
  datatype Item = Item(kind: int, tag: int, value: nat)

  predicate IsMain(it: Item) { it.kind == 0 }
  predicate IsInput(it: Item) { it.kind == 0 && it.tag == 8 }
  predicate IsUsagePage(it: Item) { it.kind == 1 && it.tag == 0 }
  predicate IsReportId(it: Item) { it.kind == 1 && it.tag == 8 }
  predicate IsUsage(it: Item) { it.kind == 2 && it.tag == 0 }

  /** Number of data bytes announced by the low two bits of the prefix. */
  function DataSize(prefix: u8): nat {
    if prefix % 4 == 3 then 4 else prefix % 4
  }

  function LittleEndian(bytes: seq<u8>): nat {
    if bytes == [] then 0 else bytes[0] as nat + 0x100 * LittleEndian(bytes[1..])
  }

  function ItemOf(prefix: u8, bytes: seq<u8>): Item {
    Item(prefix / 4 % 4, prefix / 16, LittleEndian(bytes))
  }

  /** The complete items of `data` from index `i` on; an incomplete one ends the list. */
  function ItemsFrom(data: seq<u8>, i: nat): seq<Item>
    decreases |data| - i
  {
    if i >= |data| then [] else
    var end := i + 1 + DataSize(data[i]);
    if end > |data| then [] else [ItemOf(data[i], data[i + 1..end])] + ItemsFrom(data, end)
  }

  // ─── The machine ───────────────────────────────────────────────────────────

  datatype Parser = Parser(page: UsagePage, usage: u16, reportId: u8, found: HidDescriptor)

  const START: Parser := Parser(Unknown(0), 0, 0, EMPTY)

  /** The kind of an Input item met in this state. */
  function KindHere(page: UsagePage, usage: u16): Option<ReportKind> {
    match page
    case KeyboardPage => Some(Keyboard)
    case ConsumerPage => Some(Consumer)
    case GenericDesktop => if usage == USAGE_MOUSE || usage == USAGE_POINTER then Some(Mouse) else None
    case _ => None
  }

  function FirstId(known: Option<u8>, id: u8): Option<u8> {
    if id != 0 && known.None? then Some(id) else known
  }

  function Flagged(d: HidDescriptor, kind: ReportKind, id: u8): HidDescriptor {
    match kind
    case Keyboard => d.(hasKeyboard := true, keyboardId := FirstId(d.keyboardId, id))
    case Mouse => d.(hasMouse := true, mouseId := FirstId(d.mouseId, id))
    case Consumer => d.(hasConsumer := true, consumerId := FirstId(d.consumerId, id))
  }

  function Step(p: Parser, it: Item): Parser {
    if IsMain(it) then
      var kind := KindHere(p.page, p.usage);
      p.(usage := 0, found := if IsInput(it) && kind.Some? then Flagged(p.found, kind.value, p.reportId) else p.found)
    else if IsUsagePage(it) then p.(page := UsagePageFrom(it.value % 0x1_0000))
    else if IsReportId(it) then p.(reportId := it.value % 0x100)
    else if IsUsage(it) then p.(usage := it.value % 0x1_0000)
    else p
  }

  function Run(items: seq<Item>): Parser {
    if items == [] then START else Step(Run(items[..|items| - 1]), items[|items| - 1])
  }

  /** The machine run from state `p`, in the order of the loop. */
  function RunFrom(p: Parser, items: seq<Item>): Parser
    decreases |items|
  {
    if items == [] then p else RunFrom(Step(p, items[0]), items[1..])
  }

  lemma {:induction false} RunFromAppend(p: Parser, items: seq<Item>, it: Item)
    ensures RunFrom(p, items + [it]) == Step(RunFrom(p, items), it)
    decreases |items|
  {
    if items != [] {
      assert (items + [it])[1..] == items[1..] + [it];
      RunFromAppend(Step(p, items[0]), items[1..], it);
    }
  }

  lemma {:induction false} RunForward(items: seq<Item>)
    ensures RunFrom(START, items) == Run(items)
  {
    if items != [] {
      var n := |items| - 1;
      RunForward(items[..n]);
      RunFromAppend(START, items[..n], items[n]);
      assert items[..n] + [items[n]] == items;
    }
  }

  /** The body of the parse loop once an item has been read. */
  method Apply(it: Item, p: Parser) returns (page: UsagePage, usage: u16, reportId: u8, desc: HidDescriptor)
    ensures Parser(page, usage, reportId, desc) == Step(p, it)
  {
    page, usage, reportId, desc := p.page, p.usage, p.reportId, p.found;
    match it.kind {
      case 0 =>
        if it.tag == 8 {
          match page {
            case KeyboardPage =>
              desc := desc.(hasKeyboard := true);
              if reportId != 0 && desc.keyboardId.None? {
                desc := desc.(keyboardId := Some(reportId));
              }
            case GenericDesktop =>
              if usage == USAGE_MOUSE || usage == USAGE_POINTER {
                desc := desc.(hasMouse := true);
                if reportId != 0 && desc.mouseId.None? {
                  desc := desc.(mouseId := Some(reportId));
                }
              }
            case ConsumerPage =>
              desc := desc.(hasConsumer := true);
              if reportId != 0 && desc.consumerId.None? {
                desc := desc.(consumerId := Some(reportId));
              }
            case _ =>
          }
        }
        usage := 0;
      case 1 =>
        if it.tag == 0 {
          page := UsagePageFrom(it.value % 0x1_0000);
        } else if it.tag == 8 {
          reportId := it.value % 0x100;
        }
      case 2 =>
        if it.tag == 0 {
          usage := it.value % 0x1_0000;
        }
      case _ =>
    }
  }

  // ─── Declarative reading ───────────────────────────────────────────────────

  /** Index of the last item of the type, of the tag if one is given; or -1. */
  function LastOf(items: seq<Item>, kind: int, tag: Option<int>): (i: int)
    ensures -1 <= i < |items|
    ensures i >= 0 ==> items[i].kind == kind && (tag.Some? ==> items[i].tag == tag.value)
    ensures forall j | i < j < |items| :: !(items[j].kind == kind && (tag.Some? ==> items[j].tag == tag.value))
  {
    if items == [] then -1 else
    var n := |items| - 1;
    if items[n].kind == kind && (tag.Some? ==> items[n].tag == tag.value) then n else LastOf(items[..n], kind, tag)
  }

  /** The 16-bit number set by the most recent Usage Page item (type 1, tag 0), or 0. */
  function PageInEffect(items: seq<Item>): nat {
    var i := LastOf(items, 1, Some(0));
    if i < 0 then 0 else items[i].value % 0x1_0000
  }

  /** The last Usage (type 2, tag 0) since the previous Main item (type 0), or 0. */
  function UsageInEffect(items: seq<Item>): nat {
    var i := LastOf(items, 2, Some(0));
    if i < 0 || i < LastOf(items, 0, None) then 0 else items[i].value % 0x1_0000
  }

  /** The report ID set by the most recent Report ID item (type 1, tag 8), or 0. */
  function IdInEffect(items: seq<Item>): nat {
    var i := LastOf(items, 1, Some(8));
    if i < 0 then 0 else items[i].value % 0x100
  }

  /** Page 7 is the keyboard, page 12 a consumer device, page 1 with usage 1 or 2 a mouse. */
  predicate IsOfKind(page: nat, usage: nat, kind: ReportKind) {
    match kind
    case Keyboard => page == 7
    case Consumer => page == 12
    case Mouse => page == 1 && (usage == 1 || usage == 2)
  }

  /** Item `k` is an Input item (type 0, tag 8) of the given kind. */
  predicate Declares(items: seq<Item>, k: nat, kind: ReportKind)
    requires k < |items|
  {
    && items[k].kind == 0 && items[k].tag == 8
    && IsOfKind(PageInEffect(items[..k]), UsageInEffect(items[..k]), kind)
  }

  ghost predicate DeclaredBy(items: seq<Item>, kind: ReportKind) {
    exists k | 0 <= k < |items| :: Declares(items, k, kind)
  }

  /** `id` is the report ID of the first Input item of the kind that has a nonzero one. */
  ghost predicate IsFirstId(items: seq<Item>, kind: ReportKind, id: Option<u8>) {
    match id
    case Some(v) =>
      v != 0 && exists k | 0 <= k < |items| ::
        && Declares(items, k, kind) && IdInEffect(items[..k]) == v
        && forall j | 0 <= j < k :: Declares(items, j, kind) ==> IdInEffect(items[..j]) == 0
    case None =>
      forall k | 0 <= k < |items| :: Declares(items, k, kind) ==> IdInEffect(items[..k]) == 0
  }

  lemma {:induction false} RegistersInEffect(items: seq<Item>)
    ensures Run(items).page == UsagePageFrom(PageInEffect(items))
    ensures Run(items).usage == UsageInEffect(items)
    ensures Run(items).reportId == IdInEffect(items)
  {
    if items != [] {
      RegistersInEffect(items[..|items| - 1]);
    }
  }

  lemma DeclaresPrefix(items: seq<Item>, n: nat, k: nat, kind: ReportKind)
    requires k < n <= |items|
    ensures Declares(items[..n], k, kind) == Declares(items, k, kind)
    ensures items[..n][..k] == items[..k]
  {
    assert items[..n][..k] == items[..k];
  }

  lemma DeclaresPrefixes(items: seq<Item>, kind: ReportKind)
    requires items != []
    ensures var n := |items| - 1;
            forall k: nat | k < n ::
              Declares(items[..n], k, kind) == Declares(items, k, kind) && items[..n][..k] == items[..k]
  {
    var n := |items| - 1;
    forall k: nat | k < n {
      DeclaresPrefix(items, n, k, kind);
    }
  }

  /** A found ID stays the first. */
  lemma FirstIdKept(items: seq<Item>, kind: ReportKind, v: u8)
    requires items != [] && IsFirstId(items[..|items| - 1], kind, Some(v))
    ensures IsFirstId(items, kind, Some(v))
  {
    var n := |items| - 1;
    var init := items[..n];
    DeclaresPrefixes(items, kind);
    var k :| 0 <= k < n && Declares(init, k, kind) && IdInEffect(init[..k]) == v
             && forall j | 0 <= j < k :: Declares(init, j, kind) ==> IdInEffect(init[..j]) == 0;
    forall j | 0 <= j < k && Declares(items, j, kind)
      ensures IdInEffect(items[..j]) == 0
    {
      assert Declares(init, j, kind);
    }
    assert Declares(items, k, kind);
  }

  /** While none was found, the last item may bring one. */
  lemma FirstIdFound(items: seq<Item>, kind: ReportKind)
    requires items != [] && IsFirstId(items[..|items| - 1], kind, None)
    ensures var n := |items| - 1;
            IsFirstId(items, kind, if Declares(items, n, kind) then FirstId(None, IdInEffect(items[..n])) else None)
  {
    var n := |items| - 1;
    DeclaresPrefixes(items, kind);
    forall j | 0 <= j < n && Declares(items, j, kind)
      ensures IdInEffect(items[..j]) == 0
    {
      assert Declares(items[..n], j, kind);
    }
  }

  lemma FirstIdStep(items: seq<Item>, kind: ReportKind, id: Option<u8>)
    requires items != [] && IsFirstId(items[..|items| - 1], kind, id)
    ensures var n := |items| - 1;
            IsFirstId(items, kind, if Declares(items, n, kind) then FirstId(id, IdInEffect(items[..n])) else id)
  {
    match id {
      case Some(v) => FirstIdKept(items, kind, v);
      case None => FirstIdFound(items, kind);
    }
  }

  lemma StepFinds(p: Parser, it: Item, kind: ReportKind)
    ensures var declares := IsInput(it) && KindHere(p.page, p.usage) == Some(kind);
            && (Has(Step(p, it).found, kind) <==> Has(p.found, kind) || declares)
            && IdOf(Step(p, it).found, kind)
               == if declares then FirstId(IdOf(p.found, kind), p.reportId) else IdOf(p.found, kind)
  {}

  lemma KindOfNumbers(page: u16, usage: u16, kind: ReportKind)
    ensures KindHere(UsagePageFrom(page), usage) == Some(kind) <==> IsOfKind(page, usage, kind)
  {}

  lemma DeclaredSome(items: seq<Item>, kind: ReportKind)
    requires items != []
    ensures var n := |items| - 1;
            DeclaredBy(items, kind) <==> DeclaredBy(items[..n], kind) || Declares(items, n, kind)
  {
    var n := |items| - 1;
    forall k | 0 <= k < n
      ensures Declares(items[..n], k, kind) == Declares(items, k, kind)
    {
      DeclaresPrefix(items, n, k, kind);
    }
  }

  /**
   The machine agrees with the declarative reading of its item list: a kind is flagged
   exactly when some Input item declares it, and its ID is that of the first such item
   whose ID is nonzero.
   */
  lemma {:induction false} MachineMeaning(items: seq<Item>, kind: ReportKind)
    ensures Has(Run(items).found, kind) <==> DeclaredBy(items, kind)
    ensures IsFirstId(items, kind, IdOf(Run(items).found, kind))
  {
    if items != [] {
      var n := |items| - 1;
      var before := Run(items[..n]);
      MachineMeaning(items[..n], kind);
      RegistersInEffect(items[..n]);
      StepFinds(before, items[n], kind);
      KindOfNumbers(PageInEffect(items[..n]), UsageInEffect(items[..n]), kind);
      DeclaredSome(items, kind);
      FirstIdStep(items, kind, IdOf(before.found, kind));
    }
  }

  lemma FoundMeaning(items: seq<Item>)
    ensures forall kind ::
              && (Has(Run(items).found, kind) <==> DeclaredBy(items, kind))
              && IsFirstId(items, kind, IdOf(Run(items).found, kind))
  {
    forall kind: ReportKind
      ensures Has(Run(items).found, kind) <==> DeclaredBy(items, kind)
      ensures IsFirstId(items, kind, IdOf(Run(items).found, kind))
    {
      MachineMeaning(items, kind);
    }
  }

  /**
   `HidDescriptor::parse`, one item per turn of the loop: the kinds declared by the complete items
   of the bytes, each with its first nonzero ID, or nothing if there is none.
   */
  method Parse(data: seq<u8>) returns (result: Option<HidDescriptor>)
    ensures result.None? <==> forall kind :: !DeclaredBy(ItemsFrom(data, 0), kind)
    ensures result.Some? ==> forall kind :: Has(result.value, kind) <==> DeclaredBy(ItemsFrom(data, 0), kind)
    ensures result.Some? ==> forall kind :: IsFirstId(ItemsFrom(data, 0), kind, IdOf(result.value, kind))
    ensures result.Some? ==> result.value == Run(ItemsFrom(data, 0)).found
  {
    var page, usage: u16, reportId: u8, desc := Unknown(0), 0, 0, EMPTY;
    var i: nat := 0;
    while i < |data|
      invariant RunFrom(Parser(page, usage, reportId, desc), ItemsFrom(data, i))
             == RunFrom(START, ItemsFrom(data, 0))
    {
      var prefix := data[i];
      var size := DataSize(prefix);
      if i + 1 + size > |data| {
        break;
      }
      var it := ItemOf(prefix, data[i + 1..i + 1 + size]);
      page, usage, reportId, desc := Apply(it, Parser(page, usage, reportId, desc));
      i := i + 1 + size;
    }
    RunForward(ItemsFrom(data, 0));
    FoundMeaning(ItemsFrom(data, 0));
    if desc.hasKeyboard || desc.hasMouse || desc.hasConsumer {
      assert Has(desc, Keyboard) || Has(desc, Mouse) || Has(desc, Consumer);
      return Some(desc);
    }
    assert forall kind :: !Has(desc, kind);
    return None;
  }

  // ─── Encoded short items ───────────────────────────────────────────────────

  /** A short item (section 6.2.2.2): prefix fields and as many data bytes as the size code says. */
  datatype ShortItem = ShortItem(kind: nat, tag: nat, sizeCode: nat, bytes: seq<u8>)

  predicate IsShortItem(it: ShortItem) {
    && it.kind < 4 && it.tag < 16 && it.sizeCode < 4
    && |it.bytes| in {0, 1, 2, 4} && |it.bytes| == [0, 1, 2, 4][it.sizeCode]
  }

  function Encode(items: seq<ShortItem>): seq<u8>
    requires forall it | it in items :: IsShortItem(it)
  {
    if items == [] then []
    else EncodeOne(items[0]) + Encode(items[1..])
  }

  function EncodeOne(it: ShortItem): seq<u8>
    requires IsShortItem(it)
  {
    [(it.tag * 4 + it.kind) * 4 + it.sizeCode] + it.bytes
  }

  /** The value of up to four data bytes, the least significant first. */
  function ValueOf(bytes: seq<u8>): nat
    requires |bytes| in {0, 1, 2, 4}
  {
    if |bytes| == 0 then 0
    else if |bytes| == 1 then bytes[0]
    else if |bytes| == 2 then bytes[0] as nat + bytes[1] as nat * 0x100
    else bytes[0] as nat + bytes[1] as nat * 0x100 + bytes[2] as nat * 0x1_0000 + bytes[3] as nat * 0x100_0000
  }

  lemma {:induction false} LittleEndianValue(bytes: seq<u8>)
    requires |bytes| in {0, 1, 2, 4}
    ensures LittleEndian(bytes) == ValueOf(bytes)
  {
    if bytes != [] {
      var tail := bytes[1..];
      if |bytes| == 1 {
        assert tail == [];
      } else if |bytes| == 2 {
        LittleEndianValue(tail);
      } else {
        LittleEndianValue(tail[1..]);
        assert LittleEndian(tail) == tail[0] as nat + 0x100 * LittleEndian(tail[1..]);
      }
    }
  }

  function Meaning(items: seq<ShortItem>): seq<Item>
    requires forall it | it in items :: IsShortItem(it)
  {
    if items == [] then [] else
    assert IsShortItem(items[0]);
    [Item(items[0].kind, items[0].tag, ValueOf(items[0].bytes))] + Meaning(items[1..])
  }

  /** What may follow the last complete item: nothing, or an item cut short. */
  predicate IsItemTail(tail: seq<u8>) {
    tail == [] || |tail| <= [0, 1, 2, 4][tail[0] % 4]
  }

  lemma PrefixFields(it: ShortItem)
    requires IsShortItem(it)
    ensures var prefix := EncodeOne(it)[0];
            prefix / 4 % 4 == it.kind && prefix / 16 == it.tag && DataSize(prefix) == |it.bytes|
  {
    var prefix := EncodeOne(it)[0] as int;
    var fields := it.tag * 4 + it.kind;
    assert prefix / 4 == fields && prefix % 4 == it.sizeCode;
    assert fields / 4 == it.tag && fields % 4 == it.kind;
  }

  lemma {:induction false} ItemsShift(before: seq<u8>, data: seq<u8>, i: nat)
    requires i <= |data|
    ensures ItemsFrom(before + data, |before| + i) == ItemsFrom(data, i)
    decreases |data| - i
  {
    if i < |data| {
      var whole := before + data;
      assert whole[|before| + i] == data[i];
      var end := i + 1 + DataSize(data[i]);
      if end <= |data| {
        assert whole[|before| + i + 1..|before| + end] == data[i + 1..end];
        ItemsShift(before, data, end);
      }
    }
  }

  lemma FirstItem(it: ShortItem, rest: seq<u8>)
    requires IsShortItem(it)
    ensures ItemsFrom(EncodeOne(it) + rest, 0) == [Item(it.kind, it.tag, ValueOf(it.bytes))] + ItemsFrom(rest, 0)
  {
    var first := EncodeOne(it);
    var data := first + rest;
    PrefixFields(it);
    assert data[0] == first[0] && data[1..|first|] == it.bytes;
    LittleEndianValue(it.bytes);
    ItemsShift(first, rest, 0);
  }

  /** Every encoded list of short items, followed by nothing or an item cut short, is decoded into its meaning. */
  lemma {:induction false} ItemsOfEncoding(items: seq<ShortItem>, tail: seq<u8>)
    requires (forall it | it in items :: IsShortItem(it)) && IsItemTail(tail)
    ensures ItemsFrom(Encode(items) + tail, 0) == Meaning(items)
  {
    if items == [] {
      assert Encode(items) + tail == tail;
    } else {
      var first, rest := EncodeOne(items[0]), Encode(items[1..]);
      assert forall it | it in items[1..] :: it in items;
      ItemsOfEncoding(items[1..], tail);
      FirstItem(items[0], rest + tail);
      assert Encode(items) + tail == first + (rest + tail);
    }
  }

  // ─── Truncated and extended descriptors ────────────────────────────────────

  lemma {:induction false} ItemsOfPrefix(part: seq<u8>, data: seq<u8>, i: nat)
    requires part <= data
    ensures ItemsFrom(part, i) <= ItemsFrom(data, i)
    decreases |part| - i
  {
    if i < |part| {
      var end := i + 1 + DataSize(part[i]);
      if end <= |part| {
        ItemsOfPrefix(part, data, end);
        assert part[i + 1..end] == data[i + 1..end];
      }
    }
  }

  lemma {:induction false} RunGrows(items: seq<Item>, n: nat, kind: ReportKind)
    requires n <= |items|
    ensures Has(Run(items[..n]).found, kind) ==> Has(Run(items).found, kind)
    ensures IdOf(Run(items[..n]).found, kind).Some? ==>
              IdOf(Run(items).found, kind) == IdOf(Run(items[..n]).found, kind)
    decreases |items|
  {
    if n < |items| {
      var m := |items| - 1;
      assert items[..m][..n] == items[..n];
      RunGrows(items[..m], n, kind);
    } else {
      assert items[..n] == items;
    }
  }

  /**
   On arbitrary bytes, cut anywhere, more bytes never clear a flag and never change an ID
   already found.
   */
  lemma ParseIsMonotone(data: seq<u8>, k: nat, kind: ReportKind)
    requires k <= |data|
    ensures var part, whole := Run(ItemsFrom(data[..k], 0)).found, Run(ItemsFrom(data, 0)).found;
            && (Has(part, kind) ==> Has(whole, kind))
            && (IdOf(part, kind).Some? ==> IdOf(whole, kind) == IdOf(part, kind))
  {
    ItemsOfPrefix(data[..k], data, 0);
    var part, whole := ItemsFrom(data[..k], 0), ItemsFrom(data, 0);
    assert part == whole[..|part|];
    RunGrows(whole, |part|, kind);
  }

  /** A found ID is nonzero and implies its kind flag. */
  lemma FoundIds(items: seq<Item>, kind: ReportKind)
    ensures var d := Run(items).found;
            IdOf(d, kind).Some? ==> IdOf(d, kind).value != 0 && Has(d, kind)
  {
    MachineMeaning(items, kind);
  }

  /**
   A descriptor is recognised as a mouse exactly if some Input item on the Generic Desktop page
   (1) has Pointer or Mouse (1 or 2) as the last Usage since the previous Main item.
   */
  lemma MouseFlaggedIff(items: seq<Item>)
    ensures Has(Run(items).found, Mouse)
            <==> exists k: nat | k < |items| ::
                   && items[k].kind == 0 && items[k].tag == 8
                   && PageInEffect(items[..k]) == 1 && UsageInEffect(items[..k]) in {1, 2}
  {
    MachineMeaning(items, Mouse);
    forall k: nat | k < |items|
      ensures Declares(items, k, Mouse)
              <==> (&& items[k].kind == 0 && items[k].tag == 8
                    && PageInEffect(items[..k]) == 1 && UsageInEffect(items[..k]) in {1, 2})
    {}
  }

  // ─── Mouse descriptors ─────────────────────────────────────────────────────

  lemma {:induction false} RunFromConcat(p: Parser, a: seq<Item>, b: seq<Item>)
    ensures RunFrom(p, a + b) == RunFrom(RunFrom(p, a), b)
    decreases |a|
  {
    if a == [] {
      assert a + b == b;
    } else {
      assert (a + b)[0] == a[0] && (a + b)[1..] == a[1..] + b;
      RunFromConcat(Step(p, a[0]), a[1..], b);
    }
  }

  /** Items that the parser passes over: sizes, counts, ranges and the like. */
  predicate IsPassedOver(it: Item) {
    !IsMain(it) && !IsUsagePage(it) && !IsReportId(it) && !IsUsage(it)
  }

  lemma {:induction false} PassesOver(p: Parser, items: seq<Item>)
    requires forall it | it in items :: IsPassedOver(it)
    ensures RunFrom(p, items) == p
    decreases |items|
  {
    if items != [] {
      assert IsPassedOver(items[0]);
      PassesOver(p, items[1..]);
    }
  }

  function SetPage(code: u16): Item {
    Item(1, 0, code)
  }

  function SetUsage(code: u16): Item {
    Item(2, 0, code)
  }

  const COLLECTION: Item := Item(0, 10, 0)
  const END_COLLECTION: Item := Item(0, 12, 0)
  const INPUT: Item := Item(0, 8, 0)

  const OPENING: seq<Item> :=
    [SetPage(0x01), SetUsage(USAGE_MOUSE), COLLECTION, SetUsage(USAGE_POINTER), COLLECTION]
  const BUTTONS: seq<Item> := [SetPage(0x09)]
  const AXES: seq<Item> := [SetPage(0x01), SetUsage(0x30), SetUsage(0x31)]
  const WHEEL: seq<Item> := [SetUsage(0x38)]
  const PAN: seq<Item> := [SetPage(0x0C), SetUsage(0x0238)]
  const CLOSING: seq<Item> := [END_COLLECTION, END_COLLECTION]

  /** Items `setup`, then items passed over, then an Input item. */
  function Group(setup: seq<Item>, gap: seq<Item>): seq<Item> {
    setup + gap + [INPUT]
  }

  lemma RunGroup(p: Parser, setup: seq<Item>, gap: seq<Item>)
    requires forall it | it in gap :: IsPassedOver(it)
    ensures RunFrom(p, Group(setup, gap)) == Step(RunFrom(p, setup), INPUT)
  {
    RunFromConcat(p, setup + gap, [INPUT]);
    RunFromConcat(p, setup, gap);
    PassesOver(RunFrom(p, setup), gap);
    assert [INPUT][1..] == [];
  }

  /** Usage Mouse and Pointer name the two collections; neither is left for an Input item. */
  lemma RunOpening(p: Parser)
    ensures RunFrom(p, OPENING) == p.(page := GenericDesktop, usage := 0)
  {
    var t3, t4 := [SetUsage(USAGE_POINTER), COLLECTION], [COLLECTION];
    var t2 := [COLLECTION, SetUsage(USAGE_POINTER), COLLECTION];
    var t1 := [SetUsage(USAGE_MOUSE), COLLECTION, SetUsage(USAGE_POINTER), COLLECTION];
    assert OPENING[1..] == t1 && t1[1..] == t2 && t2[1..] == t3 && t3[1..] == t4 && t4[1..] == [];
    var p1 := p.(page := GenericDesktop);
    assert RunFrom(p, OPENING) == RunFrom(p1, t1) == RunFrom(p1.(usage := USAGE_MOUSE), t2);
    assert RunFrom(p1.(usage := USAGE_MOUSE), t2) == RunFrom(p1.(usage := 0), t3);
    assert RunFrom(p1.(usage := 0), t3) == RunFrom(p1.(usage := USAGE_POINTER), t4) == p1.(usage := 0);
  }

  lemma RunTwo(p: Parser, first: Item, second: Item)
    ensures RunFrom(p, [first, second]) == Step(Step(p, first), second)
  {
    assert [first, second] == [first] + [second];
    RunFromAppend(p, [first], second);
    assert [first][1..] == [];
  }

  lemma RunSetups(p: Parser)
    ensures RunFrom(p, []) == p
    ensures RunFrom(p, BUTTONS) == p.(page := Button)
    ensures RunFrom(p, AXES) == p.(page := GenericDesktop, usage := 0x31)
    ensures RunFrom(p, WHEEL) == p.(usage := 0x38)
    ensures RunFrom(p, PAN) == p.(page := ConsumerPage, usage := 0x0238)
    ensures RunFrom(p, CLOSING) == p.(usage := 0)
  {
    assert BUTTONS[1..] == [] && WHEEL[1..] == [];
    assert AXES[1..] == [SetUsage(0x30), SetUsage(0x31)];
    RunTwo(p.(page := GenericDesktop), SetUsage(0x30), SetUsage(0x31));
    RunTwo(p, SetPage(0x0C), SetUsage(0x0238));
    RunTwo(p, END_COLLECTION, END_COLLECTION);
  }

  /** Buttons, their padding and the two axes of the firmware's own mouse descriptor. */
  function PointerItems(a: seq<Item>, b: seq<Item>, c: seq<Item>): seq<Item> {
    OPENING + (Group(BUTTONS, a) + (Group([], b) + Group(AXES, c)))
  }

  /** Its wheel and horizontal scroll, up to the end. */
  function ScrollItems(d: seq<Item>, e: seq<Item>): seq<Item> {
    Group(WHEEL, d) + (Group(PAN, e) + CLOSING)
  }

  lemma RunPointer(a: seq<Item>, b: seq<Item>, c: seq<Item>)
    requires forall it | it in a || it in b || it in c :: IsPassedOver(it)
    ensures RunFrom(START, PointerItems(a, b, c)) == START.(page := GenericDesktop)
  {
    var p0, p1 := START.(page := GenericDesktop), START.(page := Button);
    RunOpening(START);
    RunSetups(p0);
    RunSetups(p1);
    RunGroup(p0, BUTTONS, a);
    RunGroup(p1, [], b);
    RunGroup(p1, AXES, c);
    RunFromConcat(START, OPENING, Group(BUTTONS, a) + (Group([], b) + Group(AXES, c)));
    RunFromConcat(p0, Group(BUTTONS, a), Group([], b) + Group(AXES, c));
    RunFromConcat(p1, Group([], b), Group(AXES, c));
  }

  lemma RunScroll(d: seq<Item>, e: seq<Item>)
    requires forall it | it in d || it in e :: IsPassedOver(it)
    ensures RunFrom(START.(page := GenericDesktop), ScrollItems(d, e)).found
            == HidDescriptor(false, false, true, None, None, None)
  {
    var p0 := START.(page := GenericDesktop);
    var p1 := Parser(ConsumerPage, 0, 0, HidDescriptor(false, false, true, None, None, None));
    RunSetups(p0);
    RunSetups(p1);
    RunGroup(p0, WHEEL, d);
    RunGroup(p0, PAN, e);
    RunFromConcat(p0, Group(WHEEL, d), Group(PAN, e) + CLOSING);
    RunFromConcat(p0, Group(PAN, e), CLOSING);
  }

  /**
   The firmware's own mouse descriptor, whatever its sizes, counts and ranges, is not recognised
   as a mouse: both collections reset the usage, and the Input items follow buttons, axes and
   wheel. Its horizontal scroll makes it a consumer device instead.
   */
  lemma OwnMouseIsConsumer(a: seq<Item>, b: seq<Item>, c: seq<Item>, d: seq<Item>, e: seq<Item>)
    requires forall it | it in a || it in b || it in c || it in d || it in e :: IsPassedOver(it)
    ensures Run(PointerItems(a, b, c) + ScrollItems(d, e)).found
            == HidDescriptor(false, false, true, None, None, None)
  {
    RunPointer(a, b, c);
    RunScroll(d, e);
    RunFromConcat(START, PointerItems(a, b, c), ScrollItems(d, e));
    RunForward(PointerItems(a, b, c) + ScrollItems(d, e));
  }
}
