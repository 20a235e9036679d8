/**
  Path commands and their text form. A stroke's commands are kept as the
  strings `M x y` and `L x y`, and a stroke is drawn from those strings
  joined with single spaces (SVG path data, read by the canvas). `Parse`
  is that reading side: it recovers the commands from the text.
 */
module PathText {
  import opened Wrappers
  import opened Numerals

  /** One path command: move the pen to (x, y), or draw a line to (x, y). */
  datatype Segment = Move(x: int, y: int) | Line(x: int, y: int)

  predicate Spaceless(w: string) {
    forall k :: 0 <= k < |w| ==> w[k] != ' '
  }

  function Command(seg: Segment): string {
    if seg.Move? then "M" else "L"
  }

  /** The three space-free words of a command's text. */
  function Words(seg: Segment): (ws: seq<string>)
    ensures |ws| == 3
    ensures forall k :: 0 <= k < 3 ==> Spaceless(ws[k])
  {
    [Command(seg), IntToString(seg.x), IntToString(seg.y)]
  }

  /** The text stored for one command: `M x y` or `L x y`. */
  function Render(seg: Segment): (s: string)
    ensures |s| >= 5
    ensures s[0] == (if seg.Move? then 'M' else 'L') && s[1] == ' '
  {
    Command(seg) + " " + IntToString(seg.x) + " " + IntToString(seg.y)
  }

  /** `Array.prototype.join(" ")` over strings. */
  function Join(parts: seq<string>): string
    decreases |parts|
  {
    if |parts| == 0 then ""
    else if |parts| == 1 then parts[0]
    else parts[0] + " " + Join(parts[1..])
  }

  function Renders(segs: seq<Segment>): (rs: seq<string>)
    ensures |rs| == |segs|
    ensures forall i :: 0 <= i < |segs| ==> rs[i] == Render(segs[i])
  {
    seq(|segs|, i requires 0 <= i < |segs| => Render(segs[i]))
  }

  /** The path text of a command list: the commands' texts joined by single spaces. */
  function Serialize(segs: seq<Segment>): string {
    Join(Renders(segs))
  }

  /** All words of a command list, in order. */
  function WordStream(segs: seq<Segment>): (ws: seq<string>)
    ensures |ws| == 3 * |segs|
    ensures forall k :: 0 <= k < |ws| ==> Spaceless(ws[k])
    decreases |segs|
  {
    if |segs| == 0 then [] else Words(segs[0]) + WordStream(segs[1..])
  }

  /** Splits a text at every space; a text without spaces is one word. */
  function Split(s: string): (parts: seq<string>)
    ensures |parts| >= 1
    decreases |s|
  {
    if |s| == 0 then [""]
    else if s[0] == ' ' then [""] + Split(s[1..])
    else
      var rest := Split(s[1..]);
      [[s[0]] + rest[0]] + rest[1..]
  }

  /** Reads a word list as consecutive `command x y` triples. */
  function ParseWords(ws: seq<string>): Option<seq<Segment>>
    decreases |ws|
  {
    if |ws| == 0 then Some([])
    else if |ws| < 3 then None
    else
      var x := ParseInt(ws[1]);
      var y := ParseInt(ws[2]);
      var rest := ParseWords(ws[3..]);
      if x.None? || y.None? || rest.None? then None
      else if ws[0] == "M" then Some([Move(x.value, y.value)] + rest.value)
      else if ws[0] == "L" then Some([Line(x.value, y.value)] + rest.value)
      else None
  }

  /** Reads path text back into commands; the empty text is the empty path. */
  function Parse(text: string): Option<seq<Segment>> {
    if |text| == 0 then Some([]) else ParseWords(Split(text))
  }

  /** Joining two non-empty lists is joining their joins with one space. */
  lemma {:induction false} JoinAppend(a: seq<string>, b: seq<string>)
    requires |a| > 0 && |b| > 0
    ensures Join(a + b) == Join(a) + " " + Join(b)
    decreases |a|
  {
    if |a| == 1 {
      assert (a + b)[1..] == b;
    } else {
      assert (a + b)[1..] == a[1..] + b;
      JoinAppend(a[1..], b);
    }
  }

  /** The serialisation of a non-empty path is the join of its word stream. */
  lemma {:induction false} SerializeIsJoinOfWords(segs: seq<Segment>)
    requires |segs| > 0
    ensures Serialize(segs) == Join(WordStream(segs))
    decreases |segs|
  {
    var rs := Renders(segs);
    RenderIsJoinOfWords(segs[0]);
    if |segs| == 1 {
      assert WordStream(segs) == Words(segs[0]) + WordStream([]);
      assert Words(segs[0]) + [] == Words(segs[0]);
    } else {
      assert rs[1..] == Renders(segs[1..]);
      SerializeIsJoinOfWords(segs[1..]);
      JoinAppend(Words(segs[0]), WordStream(segs[1..]));
    }
  }

  lemma RenderIsJoinOfWords(seg: Segment)
    ensures Render(seg) == Join(Words(seg))
  {
    var ws := Words(seg);
    assert ws[1..][1..] == [ws[2]];
    assert Join(ws[1..]) == ws[1] + " " + ws[2];
    assert Join(ws) == ws[0] + " " + (ws[1] + " " + ws[2]);
  }

  lemma {:induction false} SplitSpacelessPrefix(w: string, tail: string)
    requires Spaceless(w)
    ensures Split(w + tail) == [w + Split(tail)[0]] + Split(tail)[1..]
    decreases |w|
  {
    if |w| == 0 {
      var p := Split(tail);
      assert w + tail == tail;
      assert w + p[0] == p[0];
      assert [p[0]] + p[1..] == p;
    } else {
      assert (w + tail)[1..] == w[1..] + tail;
      SplitSpacelessPrefix(w[1..], tail);
      assert [w[0]] + (w[1..] + Split(tail)[0]) == w + Split(tail)[0];
    }
  }

  /** Splitting the join of space-free words gives the words back. */
  lemma {:induction false} SplitJoin(ws: seq<string>)
    requires |ws| > 0
    requires forall k :: 0 <= k < |ws| ==> Spaceless(ws[k])
    ensures Split(Join(ws)) == ws
    decreases |ws|
  {
    if |ws| == 1 {
      SplitSpacelessPrefix(ws[0], "");
      assert ws[0] + "" == ws[0];
    } else {
      var rest := Join(ws[1..]);
      SplitSpacelessPrefix(ws[0], " " + rest);
      assert ws[0] + " " + rest == ws[0] + (" " + rest);
      assert (" " + rest)[1..] == rest;
      assert Split(" " + rest) == [""] + Split(rest);
      assert ws[0] + "" == ws[0];
      SplitJoin(ws[1..]);
      assert [ws[0]] + ws[1..] == ws;
    }
  }

  lemma {:induction false} ParseWordStream(segs: seq<Segment>)
    ensures ParseWords(WordStream(segs)) == Some(segs)
    decreases |segs|
  {
    if |segs| > 0 {
      var ws := WordStream(segs);
      assert ws[3..] == WordStream(segs[1..]);
      IntRoundTrip(segs[0].x);
      IntRoundTrip(segs[0].y);
      ParseWordStream(segs[1..]);
      assert [segs[0]] + segs[1..] == segs;
    }
  }

  /** Reading the path text of any command list gives that list back. */
  lemma RoundTrip(segs: seq<Segment>)
    ensures Parse(Serialize(segs)) == Some(segs)
  {
    if |segs| > 0 {
      SerializeIsJoinOfWords(segs);
      assert |Render(segs[0])| > 0;
      JoinNonEmpty(Renders(segs));
      SplitJoin(WordStream(segs));
      ParseWordStream(segs);
    }
  }

  lemma JoinNonEmpty(parts: seq<string>)
    requires |parts| > 0 && |parts[0]| > 0
    ensures |Join(parts)| > 0
  {
  }

  /** Equal path texts come only from equal command lists. */
  lemma SerializeInjective(a: seq<Segment>, b: seq<Segment>)
    requires Serialize(a) == Serialize(b)
    ensures a == b
  {
    RoundTrip(a);
    RoundTrip(b);
  }

  /**
    The text of the first k commands is a prefix of the text of the whole
    list, and a strictly shorter one when commands are left out.
   */
  lemma SerializePrefix(segs: seq<Segment>, k: nat)
    requires k <= |segs|
    ensures Serialize(segs[..k]) <= Serialize(segs)
    ensures k < |segs| ==> |Serialize(segs[..k])| < |Serialize(segs)|
  {
    if k == |segs| {
      assert segs[..k] == segs;
    } else if k == 0 {
      assert Renders(segs[..0]) == [];
      JoinNonEmpty(Renders(segs));
    } else {
      JoinSplit(Renders(segs), k);
      assert Renders(segs)[..k] == Renders(segs[..k]);
    }
  }

  /** A join starts with the join of its first k parts, followed by a space. */
  lemma JoinSplit(parts: seq<string>, k: nat)
    requires 0 < k < |parts|
    ensures Join(parts) == Join(parts[..k]) + " " + Join(parts[k..])
  {
    assert parts == parts[..k] + parts[k..];
    JoinAppend(parts[..k], parts[k..]);
  }

  /** The text of `[M 0 0, L 5 5, L 10 10]`. */
  lemma SerializeExample()
    ensures Serialize([Move(0, 0), Line(5, 5), Line(10, 10)]) == "M 0 0 L 5 5 L 10 10"
  {
  }
}
