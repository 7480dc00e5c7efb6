/** `headerFromRawHeaders` (bin.js): renders a raw header list as
    `name: value` lines joined by newlines, by the chain
    `map` (pair each entry with the next, `|| false`), `filter` (even
    indices), `map` (template), `join('\n')`. */
module Display {
  import opened Wrappers
  import opened RawHeaders

  /** `x || false` for an entry that may be `undefined`: the entry when it
      is a non-empty string, `false` (None) otherwise. */
  function OrFalse(v: Option<string>): Option<string>
  {
    if v.Some? && v.value != "" then v else None
  }

  /** `[part, all[i + 1] || false]` */
  datatype Entry = Entry(part: string, next: Option<string>)

  /** The first `map`: every entry paired with the one after it. */
  function Tag(raw: seq<string>): seq<Entry>
  {
    seq(|raw|, i requires 0 <= i < |raw| => Entry(raw[i], OrFalse(At(raw, i + 1))))
  }

  /** The `filter`: keeps the elements at even indices. */
  function KeepEven<T>(s: seq<T>): seq<T>
  {
    if |s| <= 1 then s else [s[0]] + KeepEven(s[2..])
  }

  /** The template `${k}: ${v}`, where `false` prints as `false`. */
  function Render(e: Entry): string
  {
    e.part + ": " + e.next.GetOr("false")
  }

  function RenderAll(es: seq<Entry>): seq<string>
  {
    seq(|es|, j requires 0 <= j < |es| => Render(es[j]))
  }

  /** `join('\n')`: no separator after the last line. */
  function Join(lines: seq<string>): string
  {
    if lines == [] then ""
    else if |lines| == 1 then lines[0]
    else lines[0] + "\n" + Join(lines[1..])
  }

  /** The whole chain. The output is empty exactly for the empty list: any
      name yields at least the `: ` of its line. */
  function HeaderFromRawHeaders(raw: seq<string>): (r: string)
    ensures r == "" <==> raw == []
  {
    Join(RenderAll(KeepEven(Tag(raw))))
  }

  /** Splits text at every newline (the inverse of `Join` for newline-free lines). */
  function Split(s: string): (r: seq<string>)
    ensures |r| >= 1
  {
    if s == [] then [""]
    else if s[0] == '\n' then [""] + Split(s[1..])
    else var rest := Split(s[1..]); [[s[0]] + rest[0]] + rest[1..]
  }

  predicate NoNewlines(lines: seq<string>)
  {
    forall j :: 0 <= j < |lines| ==> '\n' !in lines[j]
  }

  /** The value text of the line for name index `i`: the next entry when it
      exists and is non-empty, the word `false` otherwise. */
  function ShownValue(raw: seq<string>, i: nat): string
  {
    if i + 1 < |raw| && raw[i + 1] != "" then raw[i + 1] else "false"
  }

  lemma KeepEvenLength<T>(s: seq<T>)
    ensures |KeepEven(s)| == (|s| + 1) / 2
  {
  }

  lemma {:induction false} KeepEvenAt<T>(s: seq<T>, j: nat)
    requires j < (|s| + 1) / 2
    ensures |KeepEven(s)| == (|s| + 1) / 2 && KeepEven(s)[j] == s[2 * j]
  {
    KeepEvenLength(s);
    if j > 0 {
      KeepEvenAt(s[2..], j - 1);
    }
  }

  lemma {:induction false} SplitNoNewline(a: string)
    requires '\n' !in a
    ensures Split(a) == [a]
  {
    if a != [] {
      assert a[0] != '\n' && '\n' !in a[1..];
      SplitNoNewline(a[1..]);
      assert [a[0]] + a[1..] == a;
    }
  }

  lemma {:induction false} SplitAtNewline(a: string, b: string)
    requires '\n' !in a
    ensures Split(a + "\n" + b) == [a] + Split(b)
  {
    if a == [] {
      assert a + "\n" + b == "\n" + b;
      assert ("\n" + b)[1..] == b;
    } else {
      var s := a + "\n" + b;
      assert s[0] == a[0] != '\n' && '\n' !in a[1..];
      assert s[1..] == a[1..] + "\n" + b;
      SplitAtNewline(a[1..], b);
      assert [a[0]] + a[1..] == a;
    }
  }

  /** Splitting joined newline-free lines gives the lines back. */
  lemma {:induction false} SplitJoin(lines: seq<string>)
    requires |lines| >= 1 && NoNewlines(lines)
    ensures Split(Join(lines)) == lines
  {
    if |lines| == 1 {
      SplitNoNewline(lines[0]);
    } else {
      SplitJoin(lines[1..]);
      SplitAtNewline(lines[0], Join(lines[1..]));
    }
  }

  /** For a non-empty list without newlines the output has one line per name
      (the entries at even indices: ceil(n / 2) lines, no trailing newline),
      in raw order, duplicates included; line `j` is `raw[2j]: ` followed by
      `raw[2j + 1]`, or by `false` when that entry is missing or empty. */
  lemma HeaderLines(raw: seq<string>)
    requires raw != [] && NoNewlines(raw)
    ensures var lines := Split(HeaderFromRawHeaders(raw));
      && |lines| == (|raw| + 1) / 2
      && forall j :: 0 <= j < |lines| ==> lines[j] == raw[2 * j] + ": " + ShownValue(raw, 2 * j)
  {
    var tagged := Tag(raw);
    var lines := RenderAll(KeepEven(tagged));
    KeepEvenLength(tagged);
    forall j | 0 <= j < |lines|
      ensures lines[j] == raw[2 * j] + ": " + ShownValue(raw, 2 * j)
      ensures '\n' !in lines[j]
    {
      KeepEvenAt(tagged, j);
      assert lines[j] == raw[2 * j] + ": " + ShownValue(raw, 2 * j);
    }
    SplitJoin(lines);
  }

  /** With an odd number of entries the final name has no value and its line
      ends in `: false`. */
  lemma OddLastLine(raw: seq<string>)
    requires |raw| % 2 == 1 && NoNewlines(raw)
    ensures var lines := Split(HeaderFromRawHeaders(raw));
      lines[|lines| - 1] == raw[|raw| - 1] + ": false"
  {
    HeaderLines(raw);
  }
}
