// The banner exercise: a message framed by a box of five lines.

module Banners {
  import opened RubyText

  /** `Banner`, which keeps the message it was built with. */
  datatype Banner = Banner(message: string)
  {
    /** `Banner#horizontal_rule`: corners '+' and a dash over every other column. */
    function HorizontalRule(): (r: string)
      ensures |r| == |message| + 4
      ensures r[0] == '+' && r[|r| - 1] == '+'
      ensures forall i :: 1 <= i < |r| - 1 ==> r[i] == '-'
    {
      "+-" + Repeat('-', |message|) + "-+"
    }

    /** `Banner#empty_line`: sides '|' and blanks in between. */
    function EmptyLine(): (r: string)
      ensures |r| == |message| + 4
      ensures r[0] == '|' && r[|r| - 1] == '|'
      ensures forall i :: 1 <= i < |r| - 1 ==> r[i] == ' '
    {
      "| " + Repeat(' ', |message|) + " |"
    }

    /** `Banner#message_line`: the message between "| " and " |". */
    function MessageLine(): (r: string)
      ensures |r| == |message| + 4
      ensures r[..2] == "| " && r[2..|r| - 2] == message && r[|r| - 2..] == " |"
    {
      "| " + message + " |"
    }

    /** The five lines `to_s` joins: rule, empty line, message, empty line, rule. */
    function Lines(): seq<string>
    {
      [HorizontalRule(), EmptyLine(), MessageLine(), EmptyLine(), HorizontalRule()]
    }

    /** `Banner#to_s`: the five lines joined by newlines, which cut it back into them
        as long as the message has no newline of its own. */
    function ToS(): (s: string)
      ensures '\n' !in message ==> SplitOn(s, '\n') == Lines()
    {
      if '\n' !in message then LinesHaveNoNewline(this); SplitJoin(Lines(), '\n'); Join(Lines(), "\n")
      else Join(Lines(), "\n")
    }
  }

  lemma LinesHaveNoNewline(b: Banner)
    requires '\n' !in b.message
    ensures forall i :: 0 <= i < |b.Lines()| ==> '\n' !in b.Lines()[i]
  {
    var m := b.MessageLine();
    assert m == m[..2] + m[2..|m| - 2] + m[|m| - 2..];
  }

  /** Every line of a banner is as wide as the message plus four columns, so the box is
      closed on both sides. */
  lemma SameWidth(b: Banner)
    requires '\n' !in b.message
    ensures var lines := SplitOn(b.ToS(), '\n');
      |lines| == 5 && forall i :: 0 <= i < 5 ==> |lines[i]| == |b.message| + 4
  {
  }

  /** The banner of an empty message is the smallest box. */
  lemma EmptyBanner()
    ensures Banner("").ToS() == "+--+\n|  |\n|  |\n|  |\n+--+"
  {
    var rule, side := "+--+", "|  |";
    EmptyBannerLines();
    JoinFive(rule, side, side, side, rule, "\n");
  }

  lemma EmptyBannerLines()
    ensures Banner("").Lines() == ["+--+", "|  |", "|  |", "|  |", "+--+"]
  {
    var b := Banner("");
    assert Repeat('-', 0) == [] && Repeat(' ', 0) == [];
    assert b.HorizontalRule() == "+--+";
    assert b.EmptyLine() == "|  |" && b.MessageLine() == "|  |";
  }

  lemma JoinFive(a: string, b: string, c: string, d: string, e: string, sep: string)
    ensures Join([a, b, c, d, e], sep) == a + sep + (b + sep + (c + sep + (d + sep + e)))
  {
    assert [a, b, c, d, e][1..] == [b, c, d, e] && [b, c, d, e][1..] == [c, d, e];
    assert [c, d, e][1..] == [d, e] && [d, e][1..] == [e];
    assert Join([d, e], sep) == d + sep + e;
    assert Join([c, d, e], sep) == c + sep + (d + sep + e);
    assert Join([b, c, d, e], sep) == b + sep + (c + sep + (d + sep + e));
  }
}
