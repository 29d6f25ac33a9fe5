/** Building the embed of a feed: numbered entries joined by a blank line, or
    the "no news" text, and the first entry's image. */
module Rendering {
  import opened Values

  /** Shown when no article was selected. */
  const NoNews := "沒有新聞"

  /** Between two entries. */
  const Separator := "\n\n"

  /** A selected article after translation, as `.map` builds it. */
  datatype Item = Item(title: JsText, description: JsText, url: JsText, image: string)

  /** What `EmbedBuilder` holds once its setters ran; `image` is `None` when
      `setImage` was never called. */
  datatype Embed = Embed(title: string, colour: string, description: string, image: Option<string>)

  predicate IsDigit(c: char)
  {
    '0' <= c <= '9'
  }

  function DigitChar(d: nat): (c: char)
    requires d < 10
    ensures IsDigit(c) && c as int - '0' as int == d
  {
    ('0' as int + d) as char
  }

  /** The decimal numeral of `n`, as `${n}` writes it. */
  function Decimal(n: nat): (s: string)
    ensures |s| > 0
    ensures forall k | 0 <= k < |s| :: IsDigit(s[k])
  {
    if n < 10 then [DigitChar(n)] else Decimal(n / 10) + [DigitChar(n % 10)]
  }

  /** The number a string of digits denotes. */
  function DecimalValue(s: string): nat
    requires forall k | 0 <= k < |s| :: IsDigit(s[k])
  {
    if |s| == 0 then 0
    else
      assert IsDigit(s[|s| - 1]);
      DecimalValue(s[..|s| - 1]) * 10 + (s[|s| - 1] as int - '0' as int)
  }

  /** Reading the numeral back gives the number, and only zero starts with '0'. */
  lemma {:induction false} DecimalRoundTrip(n: nat)
    ensures DecimalValue(Decimal(n)) == n
    ensures Decimal(n)[0] == '0' ==> n == 0
    decreases n
  {
    if n >= 10 {
      DecimalRoundTrip(n / 10);
      var s := Decimal(n);
      assert s[..|s| - 1] == Decimal(n / 10);
      assert s[0] == Decimal(n / 10)[0];
    }
  }

  /** `parts.join(sep)` */
  function Join(parts: seq<string>, sep: string): string
  {
    if |parts| == 0 then ""
    else if |parts| == 1 then parts[0]
    else parts[0] + sep + Join(parts[1..], sep)
  }

  /** Where `parts[i]` starts in `Join(parts, sep)`. */
  function Offset(parts: seq<string>, sep: string, i: nat): nat
    requires i <= |parts|
  {
    if i == 0 then 0 else Offset(parts, sep, i - 1) + |parts[i - 1]| + |sep|
  }

  lemma {:induction false} OffsetShift(parts: seq<string>, sep: string, i: nat)
    requires 1 <= i <= |parts|
    ensures Offset(parts, sep, i) == |parts[0]| + |sep| + Offset(parts[1..], sep, i - 1)
    decreases i
  {
    if i > 1 {
      OffsetShift(parts, sep, i - 1);
    }
  }

  /** `part` occurs in `s` at position `at`. */
  predicate SlotAt(s: string, at: nat, part: string)
  {
    at + |part| <= |s| && s[at..at + |part|] == part
  }

  /** Putting `head` in front of a string moves its slots by `|head|`. */
  lemma SlotAfter(head: string, tail: string, at: nat, part: string)
    requires SlotAt(tail, at, part)
    ensures SlotAt(head + tail, |head| + at, part)
  {
    assert (head + tail)[|head| + at..|head| + at + |part|] == tail[at..at + |part|];
  }

  /** `Join` of two or more parts: the first, `sep`, then the join of the rest. */
  lemma JoinFirst(parts: seq<string>, sep: string)
    requires |parts| > 1
    ensures Join(parts, sep) == parts[0] + sep + Join(parts[1..], sep)
    ensures Offset(parts, sep, 1) == |parts[0] + sep|
    ensures SlotAt(Join(parts, sep), 0, parts[0])
    ensures SlotAt(Join(parts, sep), |parts[0]|, sep)
  {
    var joined := Join(parts, sep);
    assert joined[..|parts[0]|] == parts[0];
    assert joined[|parts[0]|..|parts[0]| + |sep|] == sep;
  }

  /** The joined string is the parts in order with `sep` between neighbours
      and nothing else: part `i` sits at `Offset(parts, sep, i)`, `sep`
      follows it unless it is the last, and the last part ends the string. */
  lemma {:induction false} JoinSlot(parts: seq<string>, sep: string, i: nat)
    requires i < |parts|
    ensures SlotAt(Join(parts, sep), Offset(parts, sep, i), parts[i])
    ensures i + 1 < |parts| ==> SlotAt(Join(parts, sep), Offset(parts, sep, i) + |parts[i]|, sep)
    ensures i + 1 == |parts| ==> |Join(parts, sep)| == Offset(parts, sep, i) + |parts[i]|
    decreases i
  {
    if |parts| == 1 {
      assert Join(parts, sep)[0..|parts[0]|] == parts[0];
    } else {
      JoinFirst(parts, sep);
      if i > 0 {
        var rest := parts[1..];
        var head, tail := parts[0] + sep, Join(rest, sep);
        JoinSlot(rest, sep, i - 1);
        OffsetShift(parts, sep, i);
        var o := Offset(rest, sep, i - 1);
        assert rest[i - 1] == parts[i];
        SlotAfter(head, tail, o, parts[i]);
        if i + 1 < |parts| {
          SlotAfter(head, tail, o + |parts[i]|, sep);
        }
      }
    }
  }

  /** `${i + 1}. **[${a.title}](${a.url})**\n${a.description}` */
  function Entry(i: nat, item: Item): string
  {
    Decimal(i + 1) + ". **[" + Template(item.title) + "](" + Template(item.url) + ")**\n"
      + Template(item.description)
  }

  function Entries(items: seq<Item>): (entries: seq<string>)
    ensures |entries| == |items|
  {
    seq(|items|, i requires 0 <= i < |items| => Entry(i, items[i]))
  }

  /** The embed of a feed whose fetch succeeded. */
  function Render(heading: string, colour: string, items: seq<Item>): Embed
  {
    if |items| == 0 then Embed(heading, colour, NoNews, Some(""))
    else Embed(heading, colour, Join(Entries(items), Separator), Some(items[0].image))
  }

  /** The "no news" text appears exactly when nothing was selected; the image
      is the first entry's image, or '' when there is none. */
  lemma RenderEmpty(heading: string, colour: string, items: seq<Item>)
    ensures Render(heading, colour, items).title == heading
    ensures Render(heading, colour, items).colour == colour
    ensures Render(heading, colour, items).description == NoNews <==> |items| == 0
    ensures Render(heading, colour, items).image == Some(if |items| == 0 then "" else items[0].image)
  {
    if |items| > 0 {
      var entries := Entries(items);
      JoinSlot(entries, Separator, 0);
      var body := Render(heading, colour, items).description;
      assert body[0..|entries[0]|] == entries[0];
      assert entries[0][0] == Decimal(1)[0] == '1';
      assert body[0] != NoNews[0];
    }
  }

  /** Entry `i` starts with the numeral of `i + 1`, which reads back as `i + 1`. */
  lemma EntryNumber(i: nat, item: Item)
    ensures Entry(i, item)[..|Decimal(i + 1)| + 5] == Decimal(i + 1) + ". **["
    ensures DecimalValue(Decimal(i + 1)) == i + 1
  {
    DecimalRoundTrip(i + 1);
    var num := Decimal(i + 1) + ". **[";
    var rest := Template(item.title) + "](" + Template(item.url) + ")**\n" + Template(item.description);
    assert Entry(i, item) == num + rest;
    assert (num + rest)[..|num|] == num;
  }

  /** The body holds the k entries in order, with a blank line between
      neighbours and nothing after the last. */
  lemma RenderEntries(heading: string, colour: string, items: seq<Item>, i: nat)
    requires i < |items|
    ensures var body, at := Render(heading, colour, items).description, Offset(Entries(items), Separator, i);
      && SlotAt(body, at, Entry(i, items[i]))
      && (i + 1 < |items| ==> SlotAt(body, at + |Entry(i, items[i])|, Separator))
      && (i + 1 == |items| ==> |body| == at + |Entry(i, items[i])|)
  {
    var entries := Entries(items);
    assert Render(heading, colour, items).description == Join(entries, Separator);
    assert entries[i] == Entry(i, items[i]);
    JoinSlot(entries, Separator, i);
  }
}
