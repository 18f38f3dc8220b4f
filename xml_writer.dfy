/**
 * `XMLWriter`: the tag and attribute discipline shared by the simulation's XML output. A
 * flag says whether a start tag is still open (its `>` not yet written); every write first
 * closes it, except an attribute, which is written only while the tag is open.
 */
module Xml {
  import opened Wrappers

  /** The writer's state as a value: the open flag and everything printed so far. */
  datatype Writer = Writer(open: bool, out: string)

  /** One of the writer's operations. */
  datatype Op =
    | Preamble
    | StartTag(tag: string)
    | Attribute(name: string, value: string)
    | Text(text: Option<string>)
    | EndTag(tag: string)
    | CloseStartTag

  /** The first line of every document, ended by a line feed, which `println` writes where the line separator is "\n". */
  const PreambleLine: string := "<?xml version=\"1.0\" encoding=\"UTF-8\" ?>\n"

  /** What `closeStartTag` prints: `>` when a start tag is open, nothing otherwise. */
  function Closing(open: bool): (r: string)
    ensures |r| == if open then 1 else 0
  {
    if open then ">" else ""
  }

  /** ` name="value"`, with nothing escaped. */
  function AttributeText(name: string, value: string): string {
    " " + name + "=\"" + value + "\""
  }

  /** The effect of one operation on the writer. */
  function Apply(w: Writer, op: Op): Writer {
    match op
    case Preamble => Writer(w.open, w.out + PreambleLine)
    case StartTag(t) => Writer(true, w.out + Closing(w.open) + "<" + t)
    case Attribute(n, v) => if w.open then Writer(true, w.out + AttributeText(n, v)) else w
    case Text(None) => Writer(false, w.out + Closing(w.open))
    case Text(Some(s)) => Writer(false, w.out + Closing(w.open) + s)
    case EndTag(t) => Writer(false, w.out + Closing(w.open) + "</" + t + ">")
    case CloseStartTag => Writer(false, w.out + Closing(w.open))
  }

  /** The operations in order. */
  function Run(w: Writer, ops: seq<Op>): Writer {
    if ops == [] then w else Apply(Run(w, ops[..|ops| - 1]), ops[|ops| - 1])
  }

  /** The attributes' text in order. */
  function AttributesText(attrs: seq<(string, string)>): string {
    if attrs == [] then ""
    else AttributesText(attrs[..|attrs| - 1]) + AttributeText(attrs[|attrs| - 1].0, attrs[|attrs| - 1].1)
  }

  function AsAttributes(attrs: seq<(string, string)>): (r: seq<Op>)
    ensures |r| == |attrs| && forall k | 0 <= k < |r| :: r[k] == Attribute(attrs[k].0, attrs[k].1)
  {
    seq(|attrs|, k requires 0 <= k < |attrs| => Attribute(attrs[k].0, attrs[k].1))
  }

  class XmlWriter {
    var tagOpen: bool
    /** Everything printed to the underlying stream so far. */
    var output: string

    constructor ()
      ensures State() == Writer(false, [])
    {
      tagOpen := false;
      output := [];
    }

    function State(): Writer
      reads this
    {
      Writer(tagOpen, output)
    }

    /** `writePreambule`: the XML declaration on a line of its own. */
    method WritePreamble()
      modifies this
      ensures State() == Apply(old(State()), Preamble)
    {
      output := output + PreambleLine;
    }

    /** `startTag`: any open tag is closed, then `<tag` is printed and left open. */
    method StartTag(tag: string)
      modifies this
      ensures State() == Apply(old(State()), Op.StartTag(tag))
    {
      CloseStartTag();
      output := output + "<" + tag;
      tagOpen := true;
    }

    /** `writeAttribute`: printed only while a start tag is open. */
    method WriteAttribute(name: string, value: string)
      modifies this
      ensures State() == Apply(old(State()), Attribute(name, value))
    {
      if tagOpen {
        output := output + AttributeText(name, value);
      }
    }

    /** `writeText`: any open tag is closed, then the text, when there is one, is printed. */
    method WriteText(text: Option<string>)
      modifies this
      ensures State() == Apply(old(State()), Text(text))
    {
      CloseStartTag();
      if text.Some? {
        output := output + text.value;
      }
    }

    /** `endTag`: any open tag is closed, then `</tag>` is printed. */
    method EndTag(tag: string)
      modifies this
      ensures State() == Apply(old(State()), Op.EndTag(tag))
    {
      CloseStartTag();
      output := output + "</" + tag + ">";
    }

    /** `closeStartTag`: `>` when a start tag is open; then no tag is open. */
    method CloseStartTag()
      modifies this
      ensures State() == Apply(old(State()), Op.CloseStartTag)
    {
      if tagOpen {
        output := output + ">";
      }
      tagOpen := false;
    }
  }

  /** Every operation only appends to the output. */
  lemma {:induction false} RunAppends(w: Writer, ops: seq<Op>)
    ensures |w.out| <= |Run(w, ops).out| && Run(w, ops).out[..|w.out|] == w.out
  {
    if ops != [] {
      RunAppends(w, ops[..|ops| - 1]);
      var v := Run(w, ops[..|ops| - 1]);
      var u := Apply(v, ops[|ops| - 1]);
      assert u.out[..|v.out|] == v.out;
      assert u.out[..|w.out|] == v.out[..|w.out|];
    }
  }

  /** `startTag` leaves a tag open, after closing the one that was. */
  lemma StartTagOpens(w: Writer, t: string)
    ensures Apply(w, StartTag(t)).open
    ensures Apply(w, StartTag(t)).out == w.out + (if w.open then ">" else "") + "<" + t
  {
  }

  /** An attribute is printed exactly when a start tag is open; it never changes the flag. */
  lemma AttributeOnlyWhenOpen(w: Writer, n: string, v: string)
    ensures var u := Apply(w, Attribute(n, v));
      && u.open == w.open
      && (u.out != w.out <==> w.open)
      && (w.open ==> u.out == w.out + " " + n + "=\"" + v + "\"")
  {
    if w.open {
      assert |Apply(w, Attribute(n, v)).out| > |w.out|;
    }
  }

  /** Text, end tags and `closeStartTag` leave no tag open. */
  lemma ClosersClose(w: Writer, op: Op)
    requires op.Text? || op.EndTag? || op.CloseStartTag?
    ensures !Apply(w, op).open
  {
  }

  /** A second `closeStartTag` prints nothing. */
  lemma CloseIdempotent(w: Writer)
    ensures Run(w, [CloseStartTag, CloseStartTag]) == Apply(w, CloseStartTag)
    ensures Apply(Apply(w, CloseStartTag), CloseStartTag) == Apply(w, CloseStartTag)
  {
    var ops := [CloseStartTag, CloseStartTag];
    assert ops[..1] == [CloseStartTag] && ops[..1][..0] == [];
    assert Run(w, ops[..1]) == Apply(w, CloseStartTag);
  }

  /** `writeText(null)` is `closeStartTag`. */
  lemma NoTextOnlyCloses(w: Writer)
    ensures Apply(w, Text(None)) == Apply(w, CloseStartTag)
    ensures Apply(w, Text(None)).out == w.out + (if w.open then ">" else "")
  {
  }

  /** A start tag followed at once by its end tag is `<t></t>`: nothing is self-closed. */
  lemma EmptyElement(w: Writer, t: string)
    ensures var u := Run(w, [StartTag(t), EndTag(t)]);
      !u.open && u.out == w.out + (if w.open then ">" else "") + "<" + t + "></" + t + ">"
  {
    var ops := [StartTag(t), EndTag(t)];
    assert ops[..1] == [StartTag(t)] && ops[..1][..0] == [];
    assert Run(w, ops[..1]) == Apply(w, StartTag(t));
  }

  /** A start tag and its attributes print `<t` and each ` name="value"`, with the tag still open. */
  lemma {:induction false} StartWithAttributes(w: Writer, t: string, attrs: seq<(string, string)>)
    ensures var u := Run(w, [StartTag(t)] + AsAttributes(attrs));
      u.open && u.out == w.out + Closing(w.open) + "<" + t + AttributesText(attrs)
  {
    var ops := [StartTag(t)] + AsAttributes(attrs);
    if attrs == [] {
      assert ops == [StartTag(t)];
      assert ops[..0] == [];
    } else {
      var n := |attrs| - 1;
      StartWithAttributes(w, t, attrs[..n]);
      assert ops[..|ops| - 1] == [StartTag(t)] + AsAttributes(attrs[..n]);
      var before := w.out + Closing(w.open) + "<" + t;
      var prev := Run(w, ops[..|ops| - 1]);
      var last := AttributeText(attrs[n].0, attrs[n].1);
      assert ops[|ops| - 1] == Attribute(attrs[n].0, attrs[n].1);
      assert Run(w, ops).out == prev.out + last;
      assert AttributesText(attrs) == AttributesText(attrs[..n]) + last;
      AppendAssoc(before, AttributesText(attrs[..n]), last);
    }
  }

  lemma AppendAssoc(a: string, b: string, c: string)
    ensures a + b + c == a + (b + c)
  {
  }

  /** An element with attributes and text: `<t a="v"...>text</t>`. */
  lemma Element(w: Writer, t: string, attrs: seq<(string, string)>, text: string)
    requires !w.open
    ensures var u := Run(w, [StartTag(t)] + AsAttributes(attrs) + [Text(Some(text)), EndTag(t)]);
      !u.open && u.out == w.out + "<" + t + AttributesText(attrs) + ">" + text + "</" + t + ">"
  {
    var head := [StartTag(t)] + AsAttributes(attrs);
    var ops := head + [Text(Some(text)), EndTag(t)];
    StartWithAttributes(w, t, attrs);
    assert ops[..|ops| - 1][..|ops| - 2] == head;
    assert ops[..|ops| - 1] == head + [Text(Some(text))];
    var v := Run(w, head);
    assert v.out == w.out + "<" + t + AttributesText(attrs);
  }
}
