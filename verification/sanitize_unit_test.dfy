/** The unit test of `sanitize_html_line` (`test_sanitize_html` in
    src/download.rs): a rustdoc page fragment whose `class`, `title` and
    `data-language` attributes are stripped, with the rest of each tag,
    the spacing and the text kept.

    The proof follows the machine through the page piece by piece. Each line
    is cut, after a space, newline, `>`, `/` or `.`, into parts of a few
    pieces: a stretch of text, `<`, `>`, a stretch of tag text, a kept `c`,
    `d` or `t`, or a whole dropped attribute. No stripped literal contains
    any of those cut characters, so the look-ahead never reaches across a
    cut and every part can be run on its own (`RunExtends`). Longer literals
    are written as sums of shorter ones only to keep the verifier from
    evaluating them character by character. */
module SanitizeUnitTest {
  import opened Sanitize

  /** The page the test feeds in, and the page it expects back. */
  const Html: string := HtmlHead + HtmlTail
  const Expected: string := ExpectedHead + ExpectedTail
  const HtmlHead: string := Html0 + Html1 + Html2 + Html3 + Html4 + Html5 + Html6 + Html7
  const ExpectedHead: string := Expected0 + Expected1 + Expected2 + Expected3 + Expected4 + Expected5 + Expected6 + Expected7
  const HtmlTail: string := Html8 + Html9 + Html10 + Html11 + Html12 + Html13 + Html14
  const ExpectedTail: string := Expected8 + Expected9 + Expected10 + Expected11 + Expected12 + Expected13 + Expected14

  // Line by line. A line `HtmlK` is cut into parts `HtmlKa`, `HtmlKb`, ...;
  // `ExpectedKx` is the output of a part that loses an attribute, and a part
  // that loses nothing is its own output.
  const Html0: string := "\n"
  const Expected0: string := Html0
  const Html1a: string := "<" + ("summary" + ">")
  const Html1b: string := "\n"
  const Html1: string := Html1a + Html1b
  const Expected1: string := Html1a + Html1b
  const Html2a: string := "  " + "  "
  const Html2b: string := "<" + ("se" + ("c" + ("t" + "ion ")))
  const Html2c: string := "i" + ("d" + ("=\"me" + ("t" + ("ho" + ("d" + ".")))))
  const Html2d: string := "new\" " + ("class=\"method\"" + ">")
  const Expected2d: string := "new\" " + ">"
  const Html2e: string := "\n"
  const Html2: string := Html2a + Html2b + Html2c + Html2d + Html2e
  const Expected2: string := Html2a + Html2b + Html2c + Expected2d + Html2e
  const Html3a: string := "        " + ("<" + ("s" + "pan "))
  const Html3b: string := "class=\"rightside\"" + (">" + "\n")
  const Expected3b: string := ">" + "\n"
  const Html3: string := Html3a + Html3b
  const Expected3: string := Html3a + Expected3b
  const Html4a: string := "            " + ("<" + "a ")
  const Html4b: string := "class=\"srclink\"" + " "
  const Expected4b: string := " "
  const Html4c: string := "href=\"h" + ("t" + ("t" + "ps:/"))
  const Html4d: string := "/"
  const Html4e: string := "d" + ("o" + ("c" + "."))
  const Html4f: string := "rus" + ("t" + ("-lang." + "org/"))
  const Html4g: string := "sr" + ("c" + "/")
  const Html4h: string := "allo" + ("c" + "/")
  const Html4i: string := "ve" + ("c" + "/")
  const Html4j: string := "mo" + ("d" + ".rs.")
  const Html4k: string := "h" + ("t" + ("ml#420\"" + ">"))
  const Html4l: string := "source" + ("<" + "/")
  const Html4m: string := "a" + (">" + "\n")
  const Html4: string := Html4a + Html4b + Html4c + Html4d + Html4e + Html4f + Html4g + Html4h + Html4i + Html4j + Html4k + Html4l + Html4m
  const Expected4: string := Html4a + Expected4b + Html4c + Html4d + Html4e + Html4f + Html4g + Html4h + Html4i + Html4j + Html4k + Html4l + Html4m
  const Html5a: string := "            " + ("<" + ("s" + "pan "))
  const Html5b: string := "class=\"since\"" + " "
  const Expected5b: string := " "
  const Html5c: string := "title=\"const since 1.39.0\"" + (">" + "\n")
  const Expected5c: string := ">" + "\n"
  const Html5: string := Html5a + Html5b + Html5c
  const Expected5: string := Html5a + Expected5b + Expected5c
  const Html6: string := "               " + (" const: 1.3" + "9.0\n")
  const Expected6: string := Html6
  const Html7a: string := "            " + ("<" + "/")
  const Html7b: string := "span" + (">" + "\n")
  const Html7: string := Html7a + Html7b
  const Expected7: string := Html7a + Html7b
  const Html8a: string := "        " + ("<" + "/")
  const Html8b: string := "span" + (">" + "\n")
  const Html8: string := Html8a + Html8b
  const Expected8: string := Html8a + Html8b
  const Html9a: string := "        " + ("<" + "pre ")
  const Html9b: string := "class=\"code-header\"" + " "
  const Expected9b: string := " "
  const Html9c: string := "data-language=\"rust\"" + (">" + "\n")
  const Expected9c: string := ">" + "\n"
  const Html9: string := Html9a + Html9b + Html9c
  const Expected9: string := Html9a + Expected9b + Expected9c
  const Html10a: string := "            pub const fn new() -> Vec" + ("<" + "T, ")
  const Html10b: string := "Global" + (">" + ";\n")
  const Html10: string := Html10a + Html10b
  const Expected10: string := Html10a + Html10b
  const Html11a: string := "        " + ("<" + "/")
  const Html11b: string := "pre" + (">" + "\n")
  const Html11: string := Html11a + Html11b
  const Expected11: string := Html11a + Html11b
  const Html12a: string := "    " + ("<" + "/")
  const Html12b: string := "se" + ("c" + ("t" + ("ion" + ">")))
  const Html12c: string := "\n"
  const Html12: string := Html12a + Html12b + Html12c
  const Expected12: string := Html12a + Html12b + Html12c
  const Html13a: string := "<" + ("/summary" + ">")
  const Html13b: string := "\n"
  const Html13: string := Html13a + Html13b
  const Expected13: string := Html13a + Html13b
  const Html14: string := "    " + "    "
  const Expected14: string := Html14

  lemma Line0()
    ensures Run(Html0, Default) == (Html0, Default) && EndsAtSeparator(Html0)
  {
    var y0 := "\n";
    assert y0[|y0| - 1] == '\n';
    CopiesText("\n", "");
    assert "\n" + "" == "\n";
  }

  lemma Part1a()
    ensures Run(Html1a, Default) == (Html1a, Default) && EndsAtSeparator(Html1a)
  {
    var y2 := ">";
    var y1 := "summary" + y2;
    var y0 := "<" + y1;
    assert y2[|y2| - 1] == '>';
    ClosesTag("");
    assert ">" + "" == ">";
    CopiesTagText("summary", y2);
    OpensTag(y1);
  }

  lemma Part1b()
    ensures Run(Html1b, Default) == (Html1b, Default) && EndsAtSeparator(Html1b)
  {
    var y0 := "\n";
    assert y0[|y0| - 1] == '\n';
    CopiesText("\n", "");
    assert "\n" + "" == "\n";
  }

  lemma Line1()
    ensures Run(Html1, Default) == (Expected1, Default) && EndsAtSeparator(Html1)
  {
    Part1a();
    Part1b();
    RunExtends(Html1a, Html1b, Default, Html1a, Default, Html1b, Default);
  }

  lemma Part2a()
    ensures Run(Html2a, Default) == (Html2a, Default) && EndsAtSeparator(Html2a)
  {
    var y1 := "  ";
    var y0 := "  " + y1;
    assert y1[|y1| - 1] == ' ';
    CopiesText("  ", "");
    assert "  " + "" == "  ";
    CopiesText("  ", y1);
  }

  lemma Part2b()
    ensures Run(Html2b, Default) == (Html2b, InTag) && EndsAtSeparator(Html2b)
  {
    var y4 := "ion ";
    var y3 := "t" + y4;
    var y2 := "c" + y3;
    var y1 := "se" + y2;
    var y0 := "<" + y1;
    assert y4[|y4| - 1] == ' ';
    CopiesTagText("ion ", "");
    assert "ion " + "" == "ion ";
    KeepsLetter('t', y4);
    KeepsLetter('c', y3);
    CopiesTagText("se", y2);
    OpensTag(y1);
  }

  lemma Part2c()
    ensures Run(Html2c, InTag) == (Html2c, InTag) && EndsAtSeparator(Html2c)
  {
    var y6 := ".";
    var y5 := "d" + y6;
    var y4 := "ho" + y5;
    var y3 := "t" + y4;
    var y2 := "=\"me" + y3;
    var y1 := "d" + y2;
    var y0 := "i" + y1;
    assert y6[|y6| - 1] == '.';
    CopiesTagText(".", "");
    assert "." + "" == ".";
    KeepsLetter('d', y6);
    CopiesTagText("ho", y5);
    KeepsLetter('t', y4);
    CopiesTagText("=\"me", y3);
    KeepsLetter('d', y2);
    CopiesTagText("i", y1);
  }

  lemma Part2d()
    ensures Run(Html2d, InTag) == (Expected2d, Default) && EndsAtSeparator(Html2d)
  {
    var y2 := ">";
    var y1 := "class=\"method\"" + y2;
    var y0 := "new\" " + y1;
    assert y2[|y2| - 1] == '>';
    ClosesTag("");
    assert ">" + "" == ">";
    assert "class=\"method\""[..|Class|] == Class;
    DropsWhole("class=\"method\"", Class, y2);
    CopiesTagText("new\" ", y1);
  }

  lemma Part2e()
    ensures Run(Html2e, Default) == (Html2e, Default) && EndsAtSeparator(Html2e)
  {
    var y0 := "\n";
    assert y0[|y0| - 1] == '\n';
    CopiesText("\n", "");
    assert "\n" + "" == "\n";
  }

  lemma Line2()
    ensures Run(Html2, Default) == (Expected2, Default) && EndsAtSeparator(Html2)
  {
    Part2a();
    Part2b();
    RunExtends(Html2a, Html2b, Default, Html2a, Default, Html2b, InTag);
    Part2c();
    RunExtends(Html2a + Html2b, Html2c, Default, Html2a + Html2b, InTag, Html2c, InTag);
    Part2d();
    RunExtends(Html2a + Html2b + Html2c, Html2d, Default, Html2a + Html2b + Html2c, InTag, Expected2d, Default);
    Part2e();
    RunExtends(Html2a + Html2b + Html2c + Html2d, Html2e, Default, Html2a + Html2b + Html2c + Expected2d, Default, Html2e, Default);
  }

  lemma Part3a()
    ensures Run(Html3a, Default) == (Html3a, InTag) && EndsAtSeparator(Html3a)
  {
    var y3 := "pan ";
    var y2 := "s" + y3;
    var y1 := "<" + y2;
    var y0 := "        " + y1;
    assert y3[|y3| - 1] == ' ';
    CopiesTagText("pan ", "");
    assert "pan " + "" == "pan ";
    CopiesTagText("s", y3);
    OpensTag(y2);
    CopiesText("        ", y1);
  }

  lemma Part3b()
    ensures Run(Html3b, InTag) == (Expected3b, Default) && EndsAtSeparator(Html3b)
  {
    var y2 := "\n";
    var y1 := ">" + y2;
    var y0 := "class=\"rightside\"" + y1;
    assert y2[|y2| - 1] == '\n';
    CopiesText("\n", "");
    assert "\n" + "" == "\n";
    ClosesTag(y2);
    assert "class=\"rightside\""[..|Class|] == Class;
    DropsWhole("class=\"rightside\"", Class, y1);
  }

  lemma Line3()
    ensures Run(Html3, Default) == (Expected3, Default) && EndsAtSeparator(Html3)
  {
    Part3a();
    Part3b();
    RunExtends(Html3a, Html3b, Default, Html3a, InTag, Expected3b, Default);
  }

  lemma Part4a()
    ensures Run(Html4a, Default) == (Html4a, InTag) && EndsAtSeparator(Html4a)
  {
    var y2 := "a ";
    var y1 := "<" + y2;
    var y0 := "            " + y1;
    assert y2[|y2| - 1] == ' ';
    CopiesTagText("a ", "");
    assert "a " + "" == "a ";
    OpensTag(y2);
    CopiesText("            ", y1);
  }

  lemma Part4b()
    ensures Run(Html4b, InTag) == (Expected4b, InTag) && EndsAtSeparator(Html4b)
  {
    var y1 := " ";
    var y0 := "class=\"srclink\"" + y1;
    assert y1[|y1| - 1] == ' ';
    CopiesTagText(" ", "");
    assert " " + "" == " ";
    assert "class=\"srclink\""[..|Class|] == Class;
    DropsWhole("class=\"srclink\"", Class, y1);
  }

  lemma Part4c()
    ensures Run(Html4c, InTag) == (Html4c, InTag) && EndsAtSeparator(Html4c)
  {
    var y3 := "ps:/";
    var y2 := "t" + y3;
    var y1 := "t" + y2;
    var y0 := "href=\"h" + y1;
    assert y3[|y3| - 1] == '/';
    CopiesTagText("ps:/", "");
    assert "ps:/" + "" == "ps:/";
    KeepsLetter('t', y3);
    KeepsLetter('t', y2);
    CopiesTagText("href=\"h", y1);
  }

  lemma Part4d()
    ensures Run(Html4d, InTag) == (Html4d, InTag) && EndsAtSeparator(Html4d)
  {
    var y0 := "/";
    assert y0[|y0| - 1] == '/';
    CopiesTagText("/", "");
    assert "/" + "" == "/";
  }

  lemma Part4e()
    ensures Run(Html4e, InTag) == (Html4e, InTag) && EndsAtSeparator(Html4e)
  {
    var y3 := ".";
    var y2 := "c" + y3;
    var y1 := "o" + y2;
    var y0 := "d" + y1;
    assert y3[|y3| - 1] == '.';
    CopiesTagText(".", "");
    assert "." + "" == ".";
    KeepsLetter('c', y3);
    CopiesTagText("o", y2);
    KeepsLetter('d', y1);
  }

  lemma Part4f()
    ensures Run(Html4f, InTag) == (Html4f, InTag) && EndsAtSeparator(Html4f)
  {
    var y3 := "org/";
    var y2 := "-lang." + y3;
    var y1 := "t" + y2;
    var y0 := "rus" + y1;
    assert y3[|y3| - 1] == '/';
    CopiesTagText("org/", "");
    assert "org/" + "" == "org/";
    CopiesTagText("-lang.", y3);
    KeepsLetter('t', y2);
    CopiesTagText("rus", y1);
  }

  lemma Part4g()
    ensures Run(Html4g, InTag) == (Html4g, InTag) && EndsAtSeparator(Html4g)
  {
    var y2 := "/";
    var y1 := "c" + y2;
    var y0 := "sr" + y1;
    assert y2[|y2| - 1] == '/';
    CopiesTagText("/", "");
    assert "/" + "" == "/";
    KeepsLetter('c', y2);
    CopiesTagText("sr", y1);
  }

  lemma Part4h()
    ensures Run(Html4h, InTag) == (Html4h, InTag) && EndsAtSeparator(Html4h)
  {
    var y2 := "/";
    var y1 := "c" + y2;
    var y0 := "allo" + y1;
    assert y2[|y2| - 1] == '/';
    CopiesTagText("/", "");
    assert "/" + "" == "/";
    KeepsLetter('c', y2);
    CopiesTagText("allo", y1);
  }

  lemma Part4i()
    ensures Run(Html4i, InTag) == (Html4i, InTag) && EndsAtSeparator(Html4i)
  {
    var y2 := "/";
    var y1 := "c" + y2;
    var y0 := "ve" + y1;
    assert y2[|y2| - 1] == '/';
    CopiesTagText("/", "");
    assert "/" + "" == "/";
    KeepsLetter('c', y2);
    CopiesTagText("ve", y1);
  }

  lemma Part4j()
    ensures Run(Html4j, InTag) == (Html4j, InTag) && EndsAtSeparator(Html4j)
  {
    var y2 := ".rs.";
    var y1 := "d" + y2;
    var y0 := "mo" + y1;
    assert y2[|y2| - 1] == '.';
    CopiesTagText(".rs.", "");
    assert ".rs." + "" == ".rs.";
    KeepsLetter('d', y2);
    CopiesTagText("mo", y1);
  }

  lemma Part4k()
    ensures Run(Html4k, InTag) == (Html4k, Default) && EndsAtSeparator(Html4k)
  {
    var y3 := ">";
    var y2 := "ml#420\"" + y3;
    var y1 := "t" + y2;
    var y0 := "h" + y1;
    assert y3[|y3| - 1] == '>';
    ClosesTag("");
    assert ">" + "" == ">";
    CopiesTagText("ml#420\"", y3);
    KeepsLetter('t', y2);
    CopiesTagText("h", y1);
  }

  lemma Part4l()
    ensures Run(Html4l, Default) == (Html4l, InTag) && EndsAtSeparator(Html4l)
  {
    var y2 := "/";
    var y1 := "<" + y2;
    var y0 := "source" + y1;
    assert y2[|y2| - 1] == '/';
    CopiesTagText("/", "");
    assert "/" + "" == "/";
    OpensTag(y2);
    CopiesText("source", y1);
  }

  lemma Part4m()
    ensures Run(Html4m, InTag) == (Html4m, Default) && EndsAtSeparator(Html4m)
  {
    var y2 := "\n";
    var y1 := ">" + y2;
    var y0 := "a" + y1;
    assert y2[|y2| - 1] == '\n';
    CopiesText("\n", "");
    assert "\n" + "" == "\n";
    ClosesTag(y2);
    CopiesTagText("a", y1);
  }

  lemma Line4()
    ensures Run(Html4, Default) == (Expected4, Default) && EndsAtSeparator(Html4)
  {
    Part4a();
    Part4b();
    RunExtends(Html4a, Html4b, Default, Html4a, InTag, Expected4b, InTag);
    Part4c();
    RunExtends(Html4a + Html4b, Html4c, Default, Html4a + Expected4b, InTag, Html4c, InTag);
    Part4d();
    RunExtends(Html4a + Html4b + Html4c, Html4d, Default, Html4a + Expected4b + Html4c, InTag, Html4d, InTag);
    Part4e();
    RunExtends(Html4a + Html4b + Html4c + Html4d, Html4e, Default, Html4a + Expected4b + Html4c + Html4d, InTag, Html4e, InTag);
    Part4f();
    RunExtends(Html4a + Html4b + Html4c + Html4d + Html4e, Html4f, Default, Html4a + Expected4b + Html4c + Html4d + Html4e, InTag, Html4f, InTag);
    Part4g();
    RunExtends(Html4a + Html4b + Html4c + Html4d + Html4e + Html4f, Html4g, Default, Html4a + Expected4b + Html4c + Html4d + Html4e + Html4f, InTag, Html4g, InTag);
    Part4h();
    RunExtends(Html4a + Html4b + Html4c + Html4d + Html4e + Html4f + Html4g, Html4h, Default, Html4a + Expected4b + Html4c + Html4d + Html4e + Html4f + Html4g, InTag, Html4h, InTag);
    Part4i();
    RunExtends(Html4a + Html4b + Html4c + Html4d + Html4e + Html4f + Html4g + Html4h, Html4i, Default, Html4a + Expected4b + Html4c + Html4d + Html4e + Html4f + Html4g + Html4h, InTag, Html4i, InTag);
    Part4j();
    RunExtends(Html4a + Html4b + Html4c + Html4d + Html4e + Html4f + Html4g + Html4h + Html4i, Html4j, Default, Html4a + Expected4b + Html4c + Html4d + Html4e + Html4f + Html4g + Html4h + Html4i, InTag, Html4j, InTag);
    Part4k();
    RunExtends(Html4a + Html4b + Html4c + Html4d + Html4e + Html4f + Html4g + Html4h + Html4i + Html4j, Html4k, Default, Html4a + Expected4b + Html4c + Html4d + Html4e + Html4f + Html4g + Html4h + Html4i + Html4j, InTag, Html4k, Default);
    Part4l();
    RunExtends(Html4a + Html4b + Html4c + Html4d + Html4e + Html4f + Html4g + Html4h + Html4i + Html4j + Html4k, Html4l, Default, Html4a + Expected4b + Html4c + Html4d + Html4e + Html4f + Html4g + Html4h + Html4i + Html4j + Html4k, Default, Html4l, InTag);
    Part4m();
    RunExtends(Html4a + Html4b + Html4c + Html4d + Html4e + Html4f + Html4g + Html4h + Html4i + Html4j + Html4k + Html4l, Html4m, Default, Html4a + Expected4b + Html4c + Html4d + Html4e + Html4f + Html4g + Html4h + Html4i + Html4j + Html4k + Html4l, InTag, Html4m, Default);
  }

  lemma Part5a()
    ensures Run(Html5a, Default) == (Html5a, InTag) && EndsAtSeparator(Html5a)
  {
    var y3 := "pan ";
    var y2 := "s" + y3;
    var y1 := "<" + y2;
    var y0 := "            " + y1;
    assert y3[|y3| - 1] == ' ';
    CopiesTagText("pan ", "");
    assert "pan " + "" == "pan ";
    CopiesTagText("s", y3);
    OpensTag(y2);
    CopiesText("            ", y1);
  }

  lemma Part5b()
    ensures Run(Html5b, InTag) == (Expected5b, InTag) && EndsAtSeparator(Html5b)
  {
    var y1 := " ";
    var y0 := "class=\"since\"" + y1;
    assert y1[|y1| - 1] == ' ';
    CopiesTagText(" ", "");
    assert " " + "" == " ";
    assert "class=\"since\""[..|Class|] == Class;
    DropsWhole("class=\"since\"", Class, y1);
  }

  lemma Part5c()
    ensures Run(Html5c, InTag) == (Expected5c, Default) && EndsAtSeparator(Html5c)
  {
    var y2 := "\n";
    var y1 := ">" + y2;
    var y0 := "title=\"const since 1.39.0\"" + y1;
    assert y2[|y2| - 1] == '\n';
    CopiesText("\n", "");
    assert "\n" + "" == "\n";
    ClosesTag(y2);
    assert "title=\"const since 1.39.0\""[..|Title|] == Title;
    DropsWhole("title=\"const since 1.39.0\"", Title, y1);
  }

  /** `<span class="since" title="const since 1.39.0">` becomes `<span  >`:
      both attributes go, and the spaces before them stay. */
  lemma Line5()
    ensures Run(Html5, Default) == (Expected5, Default) && EndsAtSeparator(Html5)
  {
    Part5a();
    Part5b();
    RunExtends(Html5a, Html5b, Default, Html5a, InTag, Expected5b, InTag);
    Part5c();
    RunExtends(Html5a + Html5b, Html5c, Default, Html5a + Expected5b, InTag, Expected5c, Default);
  }

  lemma Line6()
    ensures Run(Html6, Default) == (Html6, Default) && EndsAtSeparator(Html6)
  {
    var y2 := "9.0\n";
    var y1 := " const: 1.3" + y2;
    var y0 := "               " + y1;
    assert y2[|y2| - 1] == '\n';
    CopiesText("9.0\n", "");
    assert "9.0\n" + "" == "9.0\n";
    CopiesText(" const: 1.3", y2);
    CopiesText("               ", y1);
  }

  lemma Part7a()
    ensures Run(Html7a, Default) == (Html7a, InTag) && EndsAtSeparator(Html7a)
  {
    var y2 := "/";
    var y1 := "<" + y2;
    var y0 := "            " + y1;
    assert y2[|y2| - 1] == '/';
    CopiesTagText("/", "");
    assert "/" + "" == "/";
    OpensTag(y2);
    CopiesText("            ", y1);
  }

  lemma Part7b()
    ensures Run(Html7b, InTag) == (Html7b, Default) && EndsAtSeparator(Html7b)
  {
    var y2 := "\n";
    var y1 := ">" + y2;
    var y0 := "span" + y1;
    assert y2[|y2| - 1] == '\n';
    CopiesText("\n", "");
    assert "\n" + "" == "\n";
    ClosesTag(y2);
    CopiesTagText("span", y1);
  }

  lemma Line7()
    ensures Run(Html7, Default) == (Expected7, Default) && EndsAtSeparator(Html7)
  {
    Part7a();
    Part7b();
    RunExtends(Html7a, Html7b, Default, Html7a, InTag, Html7b, Default);
  }

  lemma Part8a()
    ensures Run(Html8a, Default) == (Html8a, InTag) && EndsAtSeparator(Html8a)
  {
    var y2 := "/";
    var y1 := "<" + y2;
    var y0 := "        " + y1;
    assert y2[|y2| - 1] == '/';
    CopiesTagText("/", "");
    assert "/" + "" == "/";
    OpensTag(y2);
    CopiesText("        ", y1);
  }

  lemma Part8b()
    ensures Run(Html8b, InTag) == (Html8b, Default) && EndsAtSeparator(Html8b)
  {
    var y2 := "\n";
    var y1 := ">" + y2;
    var y0 := "span" + y1;
    assert y2[|y2| - 1] == '\n';
    CopiesText("\n", "");
    assert "\n" + "" == "\n";
    ClosesTag(y2);
    CopiesTagText("span", y1);
  }

  lemma Line8()
    ensures Run(Html8, Default) == (Expected8, Default) && EndsAtSeparator(Html8)
  {
    Part8a();
    Part8b();
    RunExtends(Html8a, Html8b, Default, Html8a, InTag, Html8b, Default);
  }

  lemma Part9a()
    ensures Run(Html9a, Default) == (Html9a, InTag) && EndsAtSeparator(Html9a)
  {
    var y2 := "pre ";
    var y1 := "<" + y2;
    var y0 := "        " + y1;
    assert y2[|y2| - 1] == ' ';
    CopiesTagText("pre ", "");
    assert "pre " + "" == "pre ";
    OpensTag(y2);
    CopiesText("        ", y1);
  }

  lemma Part9b()
    ensures Run(Html9b, InTag) == (Expected9b, InTag) && EndsAtSeparator(Html9b)
  {
    var y1 := " ";
    var y0 := "class=\"code-header\"" + y1;
    assert y1[|y1| - 1] == ' ';
    CopiesTagText(" ", "");
    assert " " + "" == " ";
    assert "class=\"code-header\""[..|Class|] == Class;
    DropsWhole("class=\"code-header\"", Class, y1);
  }

  lemma Part9c()
    ensures Run(Html9c, InTag) == (Expected9c, Default) && EndsAtSeparator(Html9c)
  {
    var y2 := "\n";
    var y1 := ">" + y2;
    var y0 := "data-language=\"rust\"" + y1;
    assert y2[|y2| - 1] == '\n';
    CopiesText("\n", "");
    assert "\n" + "" == "\n";
    ClosesTag(y2);
    assert "data-language=\"rust\""[..|DataLanguage|] == DataLanguage;
    DropsWhole("data-language=\"rust\"", DataLanguage, y1);
  }

  lemma Line9()
    ensures Run(Html9, Default) == (Expected9, Default) && EndsAtSeparator(Html9)
  {
    Part9a();
    Part9b();
    RunExtends(Html9a, Html9b, Default, Html9a, InTag, Expected9b, InTag);
    Part9c();
    RunExtends(Html9a + Html9b, Html9c, Default, Html9a + Expected9b, InTag, Expected9c, Default);
  }

  lemma Part10a()
    ensures Run(Html10a, Default) == (Html10a, InTag) && EndsAtSeparator(Html10a)
  {
    var y2 := "T, ";
    var y1 := "<" + y2;
    var y0 := "            pub const fn new() -> Vec" + y1;
    assert y2[|y2| - 1] == ' ';
    CopiesTagText("T, ", "");
    assert "T, " + "" == "T, ";
    OpensTag(y2);
    CopiesText("            pub const fn new() -> Vec", y1);
  }

  lemma Part10b()
    ensures Run(Html10b, InTag) == (Html10b, Default) && EndsAtSeparator(Html10b)
  {
    var y2 := ";\n";
    var y1 := ">" + y2;
    var y0 := "Global" + y1;
    assert y2[|y2| - 1] == '\n';
    CopiesText(";\n", "");
    assert ";\n" + "" == ";\n";
    ClosesTag(y2);
    CopiesTagText("Global", y1);
  }

  lemma Line10()
    ensures Run(Html10, Default) == (Expected10, Default) && EndsAtSeparator(Html10)
  {
    Part10a();
    Part10b();
    RunExtends(Html10a, Html10b, Default, Html10a, InTag, Html10b, Default);
  }

  lemma Part11a()
    ensures Run(Html11a, Default) == (Html11a, InTag) && EndsAtSeparator(Html11a)
  {
    var y2 := "/";
    var y1 := "<" + y2;
    var y0 := "        " + y1;
    assert y2[|y2| - 1] == '/';
    CopiesTagText("/", "");
    assert "/" + "" == "/";
    OpensTag(y2);
    CopiesText("        ", y1);
  }

  lemma Part11b()
    ensures Run(Html11b, InTag) == (Html11b, Default) && EndsAtSeparator(Html11b)
  {
    var y2 := "\n";
    var y1 := ">" + y2;
    var y0 := "pre" + y1;
    assert y2[|y2| - 1] == '\n';
    CopiesText("\n", "");
    assert "\n" + "" == "\n";
    ClosesTag(y2);
    CopiesTagText("pre", y1);
  }

  lemma Line11()
    ensures Run(Html11, Default) == (Expected11, Default) && EndsAtSeparator(Html11)
  {
    Part11a();
    Part11b();
    RunExtends(Html11a, Html11b, Default, Html11a, InTag, Html11b, Default);
  }

  lemma Part12a()
    ensures Run(Html12a, Default) == (Html12a, InTag) && EndsAtSeparator(Html12a)
  {
    var y2 := "/";
    var y1 := "<" + y2;
    var y0 := "    " + y1;
    assert y2[|y2| - 1] == '/';
    CopiesTagText("/", "");
    assert "/" + "" == "/";
    OpensTag(y2);
    CopiesText("    ", y1);
  }

  lemma Part12b()
    ensures Run(Html12b, InTag) == (Html12b, Default) && EndsAtSeparator(Html12b)
  {
    var y4 := ">";
    var y3 := "ion" + y4;
    var y2 := "t" + y3;
    var y1 := "c" + y2;
    var y0 := "se" + y1;
    assert y4[|y4| - 1] == '>';
    ClosesTag("");
    assert ">" + "" == ">";
    CopiesTagText("ion", y4);
    KeepsLetter('t', y3);
    KeepsLetter('c', y2);
    CopiesTagText("se", y1);
  }

  lemma Part12c()
    ensures Run(Html12c, Default) == (Html12c, Default) && EndsAtSeparator(Html12c)
  {
    var y0 := "\n";
    assert y0[|y0| - 1] == '\n';
    CopiesText("\n", "");
    assert "\n" + "" == "\n";
  }

  lemma Line12()
    ensures Run(Html12, Default) == (Expected12, Default) && EndsAtSeparator(Html12)
  {
    Part12a();
    Part12b();
    RunExtends(Html12a, Html12b, Default, Html12a, InTag, Html12b, Default);
    Part12c();
    RunExtends(Html12a + Html12b, Html12c, Default, Html12a + Html12b, Default, Html12c, Default);
  }

  lemma Part13a()
    ensures Run(Html13a, Default) == (Html13a, Default) && EndsAtSeparator(Html13a)
  {
    var y2 := ">";
    var y1 := "/summary" + y2;
    var y0 := "<" + y1;
    assert y2[|y2| - 1] == '>';
    ClosesTag("");
    assert ">" + "" == ">";
    CopiesTagText("/summary", y2);
    OpensTag(y1);
  }

  lemma Part13b()
    ensures Run(Html13b, Default) == (Html13b, Default) && EndsAtSeparator(Html13b)
  {
    var y0 := "\n";
    assert y0[|y0| - 1] == '\n';
    CopiesText("\n", "");
    assert "\n" + "" == "\n";
  }

  lemma Line13()
    ensures Run(Html13, Default) == (Expected13, Default) && EndsAtSeparator(Html13)
  {
    Part13a();
    Part13b();
    RunExtends(Html13a, Html13b, Default, Html13a, Default, Html13b, Default);
  }

  lemma Line14()
    ensures Run(Html14, Default) == (Html14, Default) && EndsAtSeparator(Html14)
  {
    var y1 := "    ";
    var y0 := "    " + y1;
    assert y1[|y1| - 1] == ' ';
    CopiesText("    ", "");
    assert "    " + "" == "    ";
    CopiesText("    ", y1);
  }

  /** The first eight lines of the page, through the line holding `const: 1.39.0`
      and the `</span>` that follows it. */
  lemma Head()
    ensures Run(HtmlHead, Default) == (ExpectedHead, Default) && EndsAtSeparator(HtmlHead)
  {
    Line0();
    Line1();
    RunExtends(Html0, Html1, Default, Expected0, Default, Expected1, Default);
    Line2();
    RunExtends(Html0 + Html1, Html2, Default, Expected0 + Expected1, Default, Expected2, Default);
    Line3();
    RunExtends(Html0 + Html1 + Html2, Html3, Default, Expected0 + Expected1 + Expected2, Default, Expected3, Default);
    Line4();
    RunExtends(Html0 + Html1 + Html2 + Html3, Html4, Default, Expected0 + Expected1 + Expected2 + Expected3, Default, Expected4, Default);
    Line5();
    RunExtends(Html0 + Html1 + Html2 + Html3 + Html4, Html5, Default, Expected0 + Expected1 + Expected2 + Expected3 + Expected4, Default, Expected5, Default);
    Line6();
    RunExtends(Html0 + Html1 + Html2 + Html3 + Html4 + Html5, Html6, Default, Expected0 + Expected1 + Expected2 + Expected3 + Expected4 + Expected5, Default, Expected6, Default);
    Line7();
    RunExtends(Html0 + Html1 + Html2 + Html3 + Html4 + Html5 + Html6, Html7, Default, Expected0 + Expected1 + Expected2 + Expected3 + Expected4 + Expected5 + Expected6, Default, Expected7, Default);
  }

  /** The remaining lines. */
  lemma Tail()
    ensures Run(HtmlTail, Default) == (ExpectedTail, Default) && EndsAtSeparator(HtmlTail)
  {
    Line8();
    Line9();
    RunExtends(Html8, Html9, Default, Expected8, Default, Expected9, Default);
    Line10();
    RunExtends(Html8 + Html9, Html10, Default, Expected8 + Expected9, Default, Expected10, Default);
    Line11();
    RunExtends(Html8 + Html9 + Html10, Html11, Default, Expected8 + Expected9 + Expected10, Default, Expected11, Default);
    Line12();
    RunExtends(Html8 + Html9 + Html10 + Html11, Html12, Default, Expected8 + Expected9 + Expected10 + Expected11, Default, Expected12, Default);
    Line13();
    RunExtends(Html8 + Html9 + Html10 + Html11 + Html12, Html13, Default, Expected8 + Expected9 + Expected10 + Expected11 + Expected12, Default, Expected13, Default);
    Line14();
    RunExtends(Html8 + Html9 + Html10 + Html11 + Html12 + Html13, Html14, Default, Expected8 + Expected9 + Expected10 + Expected11 + Expected12 + Expected13, Default, Expected14, Default);
  }

  /** The unit test: the whole page sanitises to the expected page. */
  lemma SanitizeHtmlTest()
    ensures SanitizeHtmlLine(Html) == Expected
  {
    Head();
    Tail();
    RunExtends(HtmlHead, HtmlTail, Default, ExpectedHead, Default, ExpectedTail, Default);
  }
}
