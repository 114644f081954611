/** The text rendering of a list of events that both store managers produce.
    How one attribute value is printed (Swift interpolation of an optional) is
    the parameter `show`. */
module EventText {
  import opened Wrappers
  import opened EventModel

  /** The attribute entries of one event: `name: value` for every non-nil
      attribute of `attrs`, in order, with no separator between entries. */
  function AttributeText(e: Event, show: Value -> string, attrs: seq<Attribute>): string
    decreases |attrs|
  {
    if attrs == [] then ""
    else
      AttributeText(e, show, attrs[..|attrs| - 1]) + Entry(e, show, attrs[|attrs| - 1])
  }

  /** The entry of one attribute: `name: value`, or nothing when it is nil. */
  function Entry(e: Event, show: Value -> string, a: Attribute): string
  {
    if Get(e, a).Some? then RawValue(a) + ": " + show(Get(e, a).value) else ""
  }

  /** One event's block, braces included. */
  function Block(e: Event, show: Value -> string): string
  {
    "\n{\n" + AttributeText(e, show, GetAll) + "\n}"
  }

  /** The rendered blocks of the events, in list order. */
  function Blocks(events: seq<Event>, show: Value -> string): (r: seq<string>)
    ensures |r| == |events|
    ensures forall i :: 0 <= i < |events| ==> r[i] == Block(events[i], show)
  {
    seq(|events|, i requires 0 <= i < |events| => Block(events[i], show))
  }

  /** Texts separated by ", ". */
  function Join(parts: seq<string>): string
    decreases |parts|
  {
    if parts == [] then ""
    else if |parts| == 1 then parts[0]
    else Join(parts[..|parts| - 1]) + ", " + parts[|parts| - 1]
  }

  /** The whole rendering: the blocks, separated by ", ", between "<(" and ")>\n". */
  function Rendering(events: seq<Event>, show: Value -> string): string
  {
    "<(" + Join(Blocks(events, show)) + ")>\n"
  }

  /** printEventList: grows the output one block at a time; a block is closed by
      "\n}, " while counter < count and by "\n}" after the last event. */
  method PrintEventList(eventList: seq<Event>, show: Value -> string) returns (outputStr: string)
    ensures outputStr == Rendering(eventList, show)
  {
    outputStr := "<(";
    var counter := 0;
    for i := 0 to |eventList|
      invariant counter == i
      invariant outputStr == "<(" + Progress(eventList, i, show)
    {
      var event := eventList[i];
      counter := counter + 1;
      ghost var head := outputStr;
      outputStr := AppendAttributes(outputStr + "\n{\n", event, show, GetAll);
      ghost var body := outputStr;
      if counter < |eventList| {
        outputStr := outputStr + "\n}, ";
      } else {
        outputStr := outputStr + "\n}";
      }
      ProgressStep(eventList, i, show, head, body, outputStr);
    }
    ProgressDone(eventList, show);
    outputStr := outputStr + ")>\n";
  }

  /** The inner loop of printEventList: appends the entries of every non-nil
      attribute of `attrs` (getAll, at the call), in order. */
  method AppendAttributes(prefix: string, event: Event, show: Value -> string, attrs: seq<Attribute>)
    returns (outputStr: string)
    ensures outputStr == prefix + AttributeText(event, show, attrs)
  {
    outputStr := prefix;
    for j := 0 to |attrs|
      invariant outputStr == prefix + AttributeText(event, show, attrs[..j])
    {
      var attribute := attrs[j];
      ghost var before := outputStr;
      if Get(event, attribute).Some? {
        outputStr := outputStr + (RawValue(attribute) + ": " + show(Get(event, attribute).value));
      }
      assert outputStr == before + Entry(event, show, attribute);
      AttributeTextSnoc(event, show, attrs, j);
      ConcatAssoc(prefix, AttributeText(event, show, attrs[..j]), Entry(event, show, attribute));
    }
    assert attrs[..|attrs|] == attrs;
  }

  lemma AttributeTextSnoc(e: Event, show: Value -> string, attrs: seq<Attribute>, j: nat)
    requires j < |attrs|
    ensures AttributeText(e, show, attrs[..j + 1]) == AttributeText(e, show, attrs[..j]) + Entry(e, show, attrs[j])
  {
    assert attrs[..j + 1][..j] == attrs[..j];
  }

  lemma ProgressDone(events: seq<Event>, show: Value -> string)
    ensures Progress(events, |events|, show) == Join(Blocks(events, show))
  {
    assert Blocks(events, show)[..|events|] == Blocks(events, show);
  }

  /** The text after the opening "<(" once `i` events have been printed: their
      blocks, and a separator when more events follow. */
  function Progress(events: seq<Event>, i: nat, show: Value -> string): string
    requires i <= |events|
  {
    Join(Blocks(events, show)[..i]) + (if 0 < i < |events| then ", " else "")
  }

  lemma ProgressStep(events: seq<Event>, i: nat, show: Value -> string, head: string, body: string, out: string)
    requires i < |events|
    requires head == "<(" + Progress(events, i, show)
    requires body == head + "\n{\n" + AttributeText(events[i], show, GetAll)
    requires out == body + (if i + 1 < |events| then "\n}, " else "\n}")
    ensures out == "<(" + Progress(events, i + 1, show)
  {
    var parts := Blocks(events, show);
    var p, a := Join(parts[..i]), AttributeText(events[i], show, GetAll);
    var sepIn := if 0 < i then ", " else "";
    var sepOut := if i + 1 < |events| then ", " else "";
    assert head == "<(" + p + sepIn;
    assert parts[i] == "\n{\n" + a + "\n}";
    assert parts[..i + 1][..i] == parts[..i];
    JoinStep(parts[..i + 1]);
    assert Join(parts[..i + 1]) == p + sepIn + parts[i];
    ConcatBlock(head, p, sepIn, a, body, out, parts[i], sepOut);
    ConcatAssoc("<(", Join(parts[..i + 1]), sepOut);
  }

  lemma ConcatBlock(head: string, p: string, sepIn: string, a: string, body: string, out: string, block: string, sepOut: string)
    requires head == "<(" + p + sepIn && body == head + "\n{\n" + a
    requires block == "\n{\n" + a + "\n}"
    requires sepOut == "" || sepOut == ", "
    requires out == body + (if sepOut == ", " then "\n}, " else "\n}")
    ensures out == "<(" + (p + sepIn + block) + sepOut
  {
    assert "\n}, " == "\n}" + ", ";
  }

  lemma JoinStep(parts: seq<string>)
    requires parts != []
    ensures Join(parts) == Join(parts[..|parts| - 1]) + (if |parts| > 1 then ", " else "") + parts[|parts| - 1]
  {
  }

  /** An empty list renders as "<()>\n". */
  lemma EmptyListRendering(show: Value -> string)
    ensures Rendering([], show) == "<()>\n"
  {
  }

  /** A freshly inserted object, all of whose attributes are nil, prints no entries. */
  lemma {:induction false} NilAttributesSkipped(show: Value -> string, attrs: seq<Attribute>)
    ensures AttributeText(EmptyEvent, show, attrs) == ""
    decreases |attrs|
  {
    if attrs != [] {
      NilAttributesSkipped(show, attrs[..|attrs| - 1]);
    }
  }

  /** Joining a concatenation puts ", " between the two joins: one block per
      event, in list order. */
  lemma {:induction false} JoinAppend(s: seq<string>, t: seq<string>)
    requires s != [] && t != []
    ensures Join(s + t) == Join(s) + ", " + Join(t)
    decreases |t|
  {
    var st, t' := s + t, t[..|t| - 1];
    assert st[..|st| - 1] == s + t';
    assert st[|st| - 1] == t[|t| - 1];
    if |t| > 1 {
      JoinAppend(s, t');
    } else {
      assert s + t' == s;
    }
  }

  /** Rendering a concatenation of two non-empty lists joins their blocks with ", ". */
  lemma RenderingAppend(s: seq<Event>, t: seq<Event>, show: Value -> string)
    requires s != [] && t != []
    ensures Rendering(s + t, show) == "<(" + Join(Blocks(s, show)) + ", " + Join(Blocks(t, show)) + ")>\n"
  {
    BlocksAppend(s, t, show);
    JoinAppend(Blocks(s, show), Blocks(t, show));
  }

  /** The blocks of a concatenation are the two lists of blocks, concatenated. */
  lemma BlocksAppend(s: seq<Event>, t: seq<Event>, show: Value -> string)
    ensures Blocks(s + t, show) == Blocks(s, show) + Blocks(t, show)
  {
    var bs, bt, bst := Blocks(s, show), Blocks(t, show), Blocks(s + t, show);
    forall i | 0 <= i < |bst| ensures bst[i] == (bs + bt)[i] {
      if i < |s| { assert (s + t)[i] == s[i]; } else { assert (s + t)[i] == t[i - |s|]; }
    }
  }

  /** A non-empty list's rendering opens with "<(" and the first event's block,
      and closes with the last event's block and ")>\n". */
  lemma RenderingShape(events: seq<Event>, show: Value -> string)
    requires events != []
    ensures "<(" + Block(events[0], show) <= Rendering(events, show)
    ensures var r, last := Rendering(events, show), Block(events[|events| - 1], show) + ")>\n";
            |last| <= |r| && r[|r| - |last|..] == last
  {
    var parts := Blocks(events, show);
    var first, last := parts[0], parts[|parts| - 1];
    assert Rendering(events, show) == "<(" + Join(parts) + ")>\n";
    assert first == Block(events[0], show) && last == Block(events[|events| - 1], show);
    JoinStartsWithFirst(parts);
    JoinEndsWithLast(parts);
    Framed(Join(parts), first, last);
  }

  /** Text that starts with `first` and ends with `last`, once framed by "<(" and ")>\n". */
  lemma Framed(j: string, first: string, last: string)
    requires |first| <= |j| && j[..|first|] == first
    requires |last| <= |j| && j[|j| - |last|..] == last
    ensures "<(" + first <= "<(" + j + ")>\n"
    ensures var r, l := "<(" + j + ")>\n", last + ")>\n"; |l| <= |r| && r[|r| - |l|..] == l
  {
    var r := "<(" + j + ")>\n";
    assert r[..2 + |first|] == "<(" + j[..|first|];
  }

  lemma JoinEndsWithLast(parts: seq<string>)
    requires parts != []
    ensures var j, last := Join(parts), parts[|parts| - 1]; |last| <= |j| && j[|j| - |last|..] == last
  {
    JoinStep(parts);
  }

  lemma {:induction false} JoinStartsWithFirst(parts: seq<string>)
    requires parts != []
    ensures |parts[0]| <= |Join(parts)| && Join(parts)[..|parts[0]|] == parts[0]
    decreases |parts|
  {
    if |parts| > 1 {
      var init := parts[..|parts| - 1];
      JoinStartsWithFirst(init);
      assert init[0] == parts[0];
    }
  }
}
