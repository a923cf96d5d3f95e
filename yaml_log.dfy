/** The text the logger accumulates and writes: one YAML block-sequence item per received sample,
    a map with the keys "joint angles" and "end effector position", each a two-element flow sequence.
    How a double is printed belongs to yaml-cpp and is a parameter here (`render`); only the
    layout around the numbers is fixed. */
module YamlLog {

  datatype Option<T> = None | Some(value: T)

  /** An end-effector point, Eigen's `Vector2d`. */
  datatype Point = Point(x: real, y: real)

  /** What one callback logs: the two received angles and the point computed from them. */
  datatype LogRecord = LogRecord(joint1: real, joint2: real, eePosition: Point)

  /** The four numbers of a record as printed text. */
  datatype RenderedRecord = RenderedRecord(joint1: string, joint2: string, eeX: string, eeY: string)

  /** Number-to-text as the YAML emitter does it. */
  type Render = real -> string

  const RecordHead := "- joint angles: ["
  const ItemSeparator := ", "
  const RecordMiddle := "]\n  end effector position: ["
  const RecordTail := "]\n"

  /** The text of one record followed by `rest`; each piece is written before the next one. */
  function LayoutOnto(t: RenderedRecord, rest: string): string
  {
    RecordHead + (t.joint1 + (ItemSeparator + (t.joint2 + (RecordMiddle +
      (t.eeX + (ItemSeparator + (t.eeY + (RecordTail + rest))))))))
  }

  /** The text of one record, including the newline appended after the emitter's output. */
  function Layout(t: RenderedRecord): string
  {
    LayoutOnto(t, "")
  }

  function RenderRecord(r: LogRecord, render: Render): RenderedRecord
  {
    RenderedRecord(render(r.joint1), render(r.joint2), render(r.eePosition.x), render(r.eePosition.y))
  }

  /** The text produced for one logged sample. */
  function RecordText(r: LogRecord, render: Render): string
  {
    Layout(RenderRecord(r, render))
  }

  function RenderAll(rs: seq<LogRecord>, render: Render): (ts: seq<RenderedRecord>)
    ensures |ts| == |rs|
    ensures forall k :: 0 <= k < |rs| ==> ts[k] == RenderRecord(rs[k], render)
  {
    if rs == [] then [] else RenderAll(rs[..|rs| - 1], render) + [RenderRecord(rs[|rs| - 1], render)]
  }

  /** The texts `f` gives the elements of `ts`, one after another, built by appending. */
  function ConcatMap<T>(ts: seq<T>, f: T -> string): string
  {
    if ts == [] then "" else ConcatMap(ts[..|ts| - 1], f) + f(ts[|ts| - 1])
  }

  /** Rendered records laid out one after another, built by appending, as the logger grows its text. */
  function Concat(ts: seq<RenderedRecord>): string
  {
    ConcatMap(ts, Layout)
  }

  /** The accumulated text after logging `rs`: each record's text appended in turn. */
  function LogText(rs: seq<LogRecord>, render: Render): string
  {
    Concat(RenderAll(rs, render))
  }

  /** The file written after logging `rs`: the accumulated text followed by `std::endl`. */
  function FileText(rs: seq<LogRecord>, render: Render): string
  {
    LogText(rs, render) + "\n"
  }

  /** A printed number that cannot be mistaken for the flow-sequence punctuation around it. */
  predicate Plain(s: string)
  {
    ',' !in s && ']' !in s
  }

  predicate PlainRecord(t: RenderedRecord)
  {
    Plain(t.joint1) && Plain(t.joint2) && Plain(t.eeX) && Plain(t.eeY)
  }

  ghost predicate PlainRender(render: Render)
  {
    forall v :: Plain(render(v))
  }

  // ---------------------------------------------------------------------------------------------
  // Reading the text back

  /** Splits `s` before the first `stop` (or at its end). */
  function TakeUntil(s: string, stop: char): (r: (string, string))
    ensures r.0 + r.1 == s
    ensures stop !in r.0
    ensures r.1 == [] || r.1[0] == stop
  {
    if s == [] || s[0] == stop then ([], s)
    else
      var r := TakeUntil(s[1..], stop);
      var head := [s[0]] + r.0;
      PrependNonStop(s[0], r.0, r.1, stop);
      assert [s[0]] + s[1..] == s;
      (head, r.1)
  }

  /** A character other than `stop` in front of a `stop`-free text keeps it `stop`-free. */
  lemma PrependNonStop(c: char, t: string, u: string, stop: char)
    requires c != stop && stop !in t
    ensures stop !in [c] + t
    ensures ([c] + t) + u == [c] + (t + u)
  {
    forall i | 0 <= i < |[c] + t|
      ensures ([c] + t)[i] != stop
    {
      if i > 0 {
        assert ([c] + t)[i] == t[i - 1];
      }
    }
  }

  /** The split is determined by its properties. */
  lemma {:induction false} TakeUntilDelimited(t: string, stop: char, u: string)
    requires stop !in t
    requires u != [] && u[0] == stop
    ensures TakeUntil(t + u, stop) == (t, u)
  {
    if t != [] {
      assert (t + u)[0] == t[0];
      assert (t + u)[1..] == t[1..] + u;
      TakeUntilDelimited(t[1..], stop, u);
      assert [t[0]] + t[1..] == t;
    } else {
      assert t + u == u;
    }
  }

  function DropPrefix(p: string, s: string): Option<string>
  {
    if p <= s then Some(s[|p|..]) else None
  }

  lemma DropPrefixSound(p: string, s: string)
    ensures DropPrefix(p, s).Some? ==> s == p + DropPrefix(p, s).value
  {
    if p <= s {
      assert s == s[..|p|] + s[|p|..];
    }
  }

  lemma DropPrefixComplete(p: string, s: string)
    ensures DropPrefix(p, p + s) == Some(s)
  {
    assert (p + s)[..|p|] == p;
    assert (p + s)[|p|..] == s;
  }

  /** Reads one record off the front of `s`, returning its four number texts and the rest. */
  function ParseRecord(s: string): (r: Option<(RenderedRecord, string)>)
    ensures r.Some? ==> s == LayoutOnto(r.value.0, r.value.1)
  {
    match DropPrefix(RecordHead, s)
    case None => None
    case Some(s0) =>
      var (a, s1) := TakeUntil(s0, ',');
      match DropPrefix(ItemSeparator, s1)
      case None => None
      case Some(s2) =>
        var (b, s3) := TakeUntil(s2, ']');
        match DropPrefix(RecordMiddle, s3)
        case None => None
        case Some(s4) =>
          var (x, s5) := TakeUntil(s4, ',');
          match DropPrefix(ItemSeparator, s5)
          case None => None
          case Some(s6) =>
            var (y, s7) := TakeUntil(s6, ']');
            match DropPrefix(RecordTail, s7)
            case None => None
            case Some(rest) =>
              DropPrefixSound(RecordHead, s);
              DropPrefixSound(ItemSeparator, s1);
              DropPrefixSound(RecordMiddle, s3);
              DropPrefixSound(ItemSeparator, s5);
              DropPrefixSound(RecordTail, s7);
              Some((RenderedRecord(a, b, x, y), rest))
  }

  /** Reads a whole accumulated text as a list of records. */
  function ParseLog(s: string): (r: Option<seq<RenderedRecord>>)
    decreases |s|
  {
    if s == [] then Some([])
    else
      match ParseRecord(s)
      case None => None
      case Some((t, rest)) =>
        match ParseLog(rest)
        case None => None
        case Some(ts) => Some([t] + ts)
  }

  /** Reads a written file: the accumulated text and the final newline. */
  function ParseFile(s: string): Option<seq<RenderedRecord>>
  {
    if s != [] && s[|s| - 1] == '\n' then ParseLog(s[..|s| - 1]) else None
  }

  // ---------------------------------------------------------------------------------------------
  // Properties of the layout

  /** Logging one more record appends exactly that record's text: the text only grows. */
  lemma LogTextAppend(rs: seq<LogRecord>, r: LogRecord, render: Render)
    ensures LogText(rs + [r], render) == LogText(rs, render) + RecordText(r, render)
  {
    assert (rs + [r])[..|rs|] == rs;
    var ts := RenderAll(rs + [r], render);
    assert ts[..|ts| - 1] == RenderAll(rs, render);
  }

  /** Every earlier accumulated text is a prefix of a later one. */
  lemma {:induction false} LogTextPrefix(rs: seq<LogRecord>, n: nat, render: Render)
    requires n <= |rs|
    ensures LogText(rs[..n], render) <= LogText(rs, render)
    decreases |rs|
  {
    if n < |rs| {
      var init := rs[..|rs| - 1];
      assert rs == init + [rs[|rs| - 1]];
      assert rs[..n] == init[..n];
      LogTextPrefix(init, n, render);
      LogTextAppend(init, rs[|rs| - 1], render);
    } else {
      assert rs[..n] == rs;
    }
  }

  /** Concat seen from the front. */
  lemma {:induction false} ConcatMapFront<T>(ts: seq<T>, f: T -> string)
    requires ts != []
    ensures ConcatMap(ts, f) == f(ts[0]) + ConcatMap(ts[1..], f)
    decreases |ts|
  {
    if |ts| > 1 {
      var init := ts[..|ts| - 1];
      ConcatMapFront(init, f);
      assert init[1..] == ts[1..][..|ts[1..]| - 1];
    } else {
      assert ts[1..] == [];
      assert ts[..0] == [];
    }
  }

  lemma ConcatFront(ts: seq<RenderedRecord>)
    requires ts != []
    ensures Concat(ts) == Layout(ts[0]) + Concat(ts[1..])
  {
    ConcatMapFront(ts, Layout);
  }

  /** A record with plain numbers is read back exactly, whatever follows it. */
  lemma ParseRecordLayout(t: RenderedRecord, rest: string)
    requires PlainRecord(t)
    ensures ParseRecord(LayoutOnto(t, rest)) == Some((t, rest))
  {
    var s7 := RecordTail + rest;
    var s6 := t.eeY + s7;
    var s5 := ItemSeparator + s6;
    var s4 := t.eeX + s5;
    var s3 := RecordMiddle + s4;
    var s2 := t.joint2 + s3;
    var s1 := ItemSeparator + s2;
    var s0 := t.joint1 + s1;
    DropPrefixComplete(RecordHead, s0);
    TakeUntilDelimited(t.joint1, ',', s1);
    DropPrefixComplete(ItemSeparator, s2);
    TakeUntilDelimited(t.joint2, ']', s3);
    DropPrefixComplete(RecordMiddle, s4);
    TakeUntilDelimited(t.eeX, ',', s5);
    DropPrefixComplete(ItemSeparator, s6);
    TakeUntilDelimited(t.eeY, ']', s7);
    DropPrefixComplete(RecordTail, rest);
  }

  /** Laying a record out in front of `rest` is its text followed by `rest`. */
  lemma LayoutOntoAppend(t: RenderedRecord, rest: string)
    ensures LayoutOnto(t, rest) == Layout(t) + rest
  {
    assert RecordTail + rest == (RecordTail + "") + rest;
  }

  /** A record laid out in front of a parsable log parses as one more record. */
  lemma ParseLogCons(t: RenderedRecord, rest: string, ts: seq<RenderedRecord>)
    requires PlainRecord(t)
    requires ParseLog(rest) == Some(ts)
    ensures ParseLog(Layout(t) + rest) == Some([t] + ts)
  {
    var s := Layout(t) + rest;
    LayoutOntoAppend(t, rest);
    ParseRecordLayout(t, rest);
    assert ParseRecord(s) == Some((t, rest));
  }

  /** Reading the accumulated text back gives exactly the records laid out, in order. */
  lemma {:induction false} ParseConcat(ts: seq<RenderedRecord>)
    requires forall k :: 0 <= k < |ts| ==> PlainRecord(ts[k])
    ensures ParseLog(Concat(ts)) == Some(ts)
    decreases |ts|
  {
    if ts != [] {
      ConcatFront(ts);
      ParseConcat(ts[1..]);
      ParseLogCons(ts[0], Concat(ts[1..]), ts[1..]);
      assert [ts[0]] + ts[1..] == ts;
    } else {
      assert Concat(ts) == [];
    }
  }

  /** Whatever the reader accepts is a laid-out list of records: the reader never invents one. */
  lemma {:induction false} ParseLogSound(s: string)
    ensures ParseLog(s).Some? ==> s == Concat(ParseLog(s).value)
    decreases |s|
  {
    if s != [] && ParseLog(s).Some? {
      var (t, rest) := ParseRecord(s).value;
      LayoutOntoAppend(t, rest);
      ParseLogSound(rest);
      var ts := ParseLog(rest).value;
      ConcatFront([t] + ts);
      assert ([t] + ts)[1..] == ts;
    }
  }

  /** A file written after logging `rs` reads back as exactly `|rs|` records, the k-th holding the
      printed numbers of the k-th sample. */
  lemma FileRoundTrip(rs: seq<LogRecord>, render: Render)
    requires PlainRender(render)
    ensures ParseFile(FileText(rs, render)) == Some(RenderAll(rs, render))
  {
    var s := FileText(rs, render);
    assert s[..|s| - 1] == LogText(rs, render);
    ParseConcat(RenderAll(rs, render));
  }
}
