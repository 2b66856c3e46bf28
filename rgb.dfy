/** util/ansi/rgb.go: 24-bit colours and their SGR control sequences
    (ECMA-48 section 8.3.117, with the direct-colour parameters 38;2;r;g;b for
    the foreground and 48;2;r;g;b for the background). */
module Rgb {
  import opened GoStd
  import opened Ansi

  datatype RGBColor = RGBColor(R: byte, G: byte, B: byte)

  /** The zero value of RGBColor. */
  const NoColor: RGBColor := RGBColor(0, 0, 0)

  function NewRGBColor(r: byte, g: byte, b: byte): (c: RGBColor)
    ensures c.R == r && c.G == g && c.B == b
  {
    RGBColor(r, g, b)
  }

  /** The three components as `%d;%d;%d`. */
  function ColorParams(c: RGBColor): string
  {
    FormatNat(c.R as nat) + ";" + FormatNat(c.G as nat) + ";" + FormatNat(c.B as nat)
  }

  /** Each component takes one to three digits, so the parameters take five
      to eleven characters. */
  lemma ColorParamsLength(c: RGBColor)
    ensures 5 <= |ColorParams(c)| <= 11
  {
    ComponentRoundTrip(c.R);
    ComponentRoundTrip(c.G);
    ComponentRoundTrip(c.B);
  }

  /** The foreground sequence ESC [ 38;2;r;g;b m, 13 to 19 characters long. */
  function ToFgColorANSI(c: RGBColor): (s: string)
    ensures 13 <= |s| <= 19
    ensures s[0] == EscChar && s[1..7] == "[38;2;" && s[|s| - 1] == 'm'
  {
    ColorParamsLength(c);
    Csi("38;2;" + ColorParams(c), 'm')
  }

  /** The background sequence ESC [ 48;2;r;g;b m, 13 to 19 characters long. */
  function ToBgColorANSI(c: RGBColor): (s: string)
    ensures 13 <= |s| <= 19
    ensures s[0] == EscChar && s[1..7] == "[48;2;" && s[|s| - 1] == 'm'
  {
    ColorParamsLength(c);
    Csi("48;2;" + ColorParams(c), 'm')
  }

  /** One sequence setting both colours, 24 to 36 characters long: two
      fewer than the two separate sequences together (one ESC [ and one 'm'
      fewer, one ';' more); CombineIsFgThenBg says how they are glued. */
  function CombineFgAndBgColorANSI(fg: RGBColor, bg: RGBColor): (s: string)
    ensures 24 <= |s| <= 36
    ensures s[0] == EscChar && s[1] == '[' && s[|s| - 1] == 'm'
  {
    ColorParamsLength(fg);
    ColorParamsLength(bg);
    Csi("38;2;" + ColorParams(fg) + ";48;2;" + ColorParams(bg), 'm')
  }

  lemma NoColorIsZero()
    ensures NoColor == NewRGBColor(0, 0, 0)
  {
  }

  /** A component is written with one to three digits and reads back as
      itself. */
  lemma ComponentRoundTrip(b: byte)
    ensures 1 <= |FormatNat(b as nat)| <= 3
    ensures Atoi(FormatNat(b as nat)) == (b as int, true)
    ensures ';' !in FormatNat(b as nat)
  {
    FormatNatShort(b as nat);
    AtoiFormatInt(b as int);
    NoSepInDigits(FormatNat(b as nat), ';');
  }

  /** The colour parameters are the three components joined by ';', and
      each field reads back as its component. */
  function ComponentFields(c: RGBColor): (f: seq<string>)
    ensures |f| == 3
    ensures forall i :: 0 <= i < 3 ==> ';' !in f[i]
    ensures Join(f, ';') == ColorParams(c)
    ensures Atoi(f[0]) == (c.R as int, true) && Atoi(f[1]) == (c.G as int, true) && Atoi(f[2]) == (c.B as int, true)
  {
    ComponentRoundTrip(c.R);
    ComponentRoundTrip(c.G);
    ComponentRoundTrip(c.B);
    var f := [FormatNat(c.R as nat), FormatNat(c.G as nat), FormatNat(c.B as nat)];
    JoinCons(f[0], f[1..], ';');
    JoinCons(f[1], f[2..], ';');
    assert f[1..] == [f[1]] + f[2..];
    f
  }

  /** Join over a concatenation of part lists. */
  lemma {:induction false} JoinAppend(a: seq<string>, b: seq<string>, sep: char)
    requires |a| >= 1 && |b| >= 1
    ensures Join(a + b, sep) == Join(a, sep) + [sep] + Join(b, sep)
    decreases |a|
  {
    if |a| == 1 {
      JoinCons(a[0], b, sep);
    } else {
      JoinAppend(a[1..], b, sep);
      assert (a + b)[1..] == a[1..] + b;
      JoinCons(a[0], a[1..] + b, sep);
      JoinCons(a[0], a[1..], sep);
      assert a == [a[0]] + a[1..];
      assert a + b == [a[0]] + (a[1..] + b);
    }
  }

  /** The background sequence is the foreground one with 48 for 38. */
  lemma FgBgDiffer(c: RGBColor)
    ensures |ToFgColorANSI(c)| == |ToBgColorANSI(c)|
    ensures forall i :: 0 <= i < |ToFgColorANSI(c)| && i != 2 ==> ToFgColorANSI(c)[i] == ToBgColorANSI(c)[i]
    ensures ToFgColorANSI(c)[2] == '3' && ToBgColorANSI(c)[2] == '4'
  {
  }

  /** The combined sequence is the foreground one without its final 'm',
      then ';', then the background one without its ESC '['. */
  lemma CombineIsFgThenBg(fg: RGBColor, bg: RGBColor)
    ensures var f, b := ToFgColorANSI(fg), ToBgColorANSI(bg);
            CombineFgAndBgColorANSI(fg, bg) == f[..|f| - 1] + ";" + b[2..]
  {
    var x, y := ColorParams(fg), ColorParams(bg);
    var p, q := "38;2;" + x, "48;2;" + y;
    assert ";48;2;" == [';'] + "48;2;";
    AppendAssoc(p, [';'] + "48;2;", y);
    AppendAssoc(p, [';'], "48;2;");
    AppendAssoc(p + [';'], "48;2;", y);
    CsiSplit(p, q, 'm');
  }

  /** The parameters of a direct-colour selector: 38 or 48, then 2, then
      the components. */
  lemma SelectorFields(selector: string, c: RGBColor)
    requires selector == "38" || selector == "48"
    ensures Join([selector, "2"] + ComponentFields(c), ';') == selector + ";2;" + ColorParams(c)
  {
    var f := ComponentFields(c);
    JoinAppend([selector, "2"], f, ';');
    JoinCons(selector, ["2"], ';');
    assert ["2"][1..] == [];
  }

  /** A terminal reading the foreground sequence's parameters gets the
      direct-colour selector and the three components back. */
  lemma FgDecode(c: RGBColor)
    ensures var s := ToFgColorANSI(c);
            var parts := Split(s[2..|s| - 1], ';');
            && |parts| == 5 && parts[0] == "38" && parts[1] == "2"
            && Atoi(parts[2]) == (c.R as int, true)
            && Atoi(parts[3]) == (c.G as int, true)
            && Atoi(parts[4]) == (c.B as int, true)
  {
    var fields := ["38", "2"] + ComponentFields(c);
    SelectorFields("38", c);
    assert "38;2;" + ColorParams(c) == "38" + ";2;" + ColorParams(c);
    SplitJoin(fields, ';');
  }

  /** Two joined field lists glued with the separator split back into both. */
  lemma SplitJoined(a: string, b: string, f: seq<string>, g: seq<string>, sep: char)
    requires |f| >= 1 && |g| >= 1
    requires forall i :: 0 <= i < |f| ==> sep !in f[i]
    requires forall i :: 0 <= i < |g| ==> sep !in g[i]
    requires Join(f, sep) == a && Join(g, sep) == b
    ensures Split(a + [sep] + b, sep) == f + g
  {
    JoinAppend(f, g, sep);
    assert forall i :: 0 <= i < |f + g| ==> sep !in (f + g)[i];
    SplitJoin(f + g, sep);
  }

  /** The combined parameters are the two selectors' parameters with ';'
      between them. */
  lemma CombineParams(fg: RGBColor, bg: RGBColor)
    ensures var s := CombineFgAndBgColorANSI(fg, bg);
            s[2..|s| - 1] == ("38" + ";2;" + ColorParams(fg)) + [';'] + ("48" + ";2;" + ColorParams(bg))
  {
    var x, y := ColorParams(fg), ColorParams(bg);
    var a := "38" + ";2;" + x;
    assert "38;2;" + x == a;
    assert ";48;2;" == [';'] + "48;2;";
    AppendAssoc(a, [';'] + "48;2;", y);
    AppendAssoc(a, [';'], "48;2;");
    AppendAssoc(a + [';'], "48;2;", y);
  }

  /** The combined parameters are both selectors' fields in a row. */
  lemma CombineFields(fg: RGBColor, bg: RGBColor)
    ensures var s := CombineFgAndBgColorANSI(fg, bg);
            Split(s[2..|s| - 1], ';') == ["38", "2"] + ComponentFields(fg) + (["48", "2"] + ComponentFields(bg))
  {
    var ff, bf := ["38", "2"] + ComponentFields(fg), ["48", "2"] + ComponentFields(bg);
    SelectorFields("38", fg);
    SelectorFields("48", bg);
    CombineParams(fg, bg);
    SplitJoined("38" + ";2;" + ColorParams(fg), "48" + ";2;" + ColorParams(bg), ff, bf, ';');
  }

  /** The same for the combined sequence: ten parameters, the foreground
      components at 2..4 and the background ones at 7..9. */
  lemma CombineDecode(fg: RGBColor, bg: RGBColor)
    ensures var s := CombineFgAndBgColorANSI(fg, bg);
            var parts := Split(s[2..|s| - 1], ';');
            && |parts| == 10
            && parts[0] == "38" && parts[1] == "2" && parts[5] == "48" && parts[6] == "2"
            && Atoi(parts[2]) == (fg.R as int, true)
            && Atoi(parts[3]) == (fg.G as int, true)
            && Atoi(parts[4]) == (fg.B as int, true)
            && Atoi(parts[7]) == (bg.R as int, true)
            && Atoi(parts[8]) == (bg.G as int, true)
            && Atoi(parts[9]) == (bg.B as int, true)
  {
    CombineFields(fg, bg);
    TenFields(ComponentFields(fg), ComponentFields(bg));
  }

  /** Where the fields of the two selectors land in the combined list. */
  lemma TenFields(f: seq<string>, g: seq<string>)
    requires |f| == 3 && |g| == 3
    ensures var p := ["38", "2"] + f + (["48", "2"] + g);
            && |p| == 10 && p[0] == "38" && p[1] == "2" && p[5] == "48" && p[6] == "2"
            && p[2] == f[0] && p[3] == f[1] && p[4] == f[2]
            && p[7] == g[0] && p[8] == g[1] && p[9] == g[2]
  {
  }
}
