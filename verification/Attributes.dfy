// parse_Attributes of libhlsanalysis/src/cm3u8parse.cpp.
module Attributes {
  import opened CStrings

  /** attr and an equals sign stand at position b of line, whatever the case of the letters. */
  predicate AttrAt(line: string, attr: string, b: nat) {
    b + |attr| < |line| && StartsWithFold(line[b..], attr) && line[b + |attr|] == '='
  }

  /** The first position from b on at which attr is found, or the length of line. */
  function FirstAttr(line: string, attr: string, b: nat): (p: nat)
    requires b <= |line|
    ensures b <= p <= |line| && forall i :: b <= i < p ==> !AttrAt(line, attr, i)
    ensures p < |line| ==> AttrAt(line, attr, p)
    decreases |line| - b
  {
    if b == |line| || AttrAt(line, attr, b) then b else FirstAttr(line, attr, b + 1)
  }

  /** The text from position b up to the next comma. */
  function ValueAt(line: string, b: nat): string
    requires b <= |line|
  {
    line[b..b + IndexOf(line[b..], ',')]
  }

  /** What parse_Attributes returns: the value behind the first place the name is found at. */
  function Attribute(line: string, attr: string): Option<string> {
    var colon := IndexOf(line, ':');
    var p := FirstAttr(line, attr, colon);
    if p + |attr| + 1 >= |line| then None else Some(ValueAt(line, p + |attr| + 1))
  }

  method parse_Attributes(line: string, attr: string) returns (value: Option<string>)
    requires attr != "" && ',' !in attr
    ensures value == Attribute(line, attr)
  {
    hide StartsWithFold, AttrAt, FirstAttr, IndexOf;
    var end := |line|;
    var begin := IndexOf(line, ':');
    if begin == end {
      return None;
    }
    while true
      invariant IndexOf(line, ':') <= begin < end
      invariant FirstAttr(line, attr, IndexOf(line, ':')) == FirstAttr(line, attr, begin)
      decreases end - begin
    {
      FirstAttrStep(line, attr, begin);
      if AttrAt(line, attr, begin) {
        var p := begin + IndexOf(line[begin..], ',');
        CommaBehind(line, attr, begin);
        begin := begin + |attr| + 1;
        if begin >= end {
          return None;
        }
        return Some(line[begin..p]);
      }
      begin := begin + 1;
      if begin >= end {
        break;
      }
    }
    return None;
  }

  lemma FirstAttrStep(line: string, attr: string, b: nat)
    requires b < |line|
    ensures FirstAttr(line, attr, b) == if AttrAt(line, attr, b) then b else FirstAttr(line, attr, b + 1)
    ensures FirstAttr(line, attr, |line|) == |line|
    ensures AttrAt(line, attr, b) ==> b + |attr| < |line|
  {
  }

  /** There is no comma in the name, so the one looked for from the name on is behind the value. */
  lemma CommaBehind(line: string, attr: string, b: nat)
    requires ',' !in attr && AttrAt(line, attr, b)
    ensures b + IndexOf(line[b..], ',') == b + |attr| + 1 + IndexOf(line[b + |attr| + 1..], ',')
  {
    var n := |attr| + 1;
    forall i | 0 <= i < n ensures line[b..][i] != ',' {
      if i < |attr| {
        assert ToLower(line[b..][i]) == ToLower(attr[i]) && attr[i] in attr;
      }
    }
    var k := IndexOf(line[b + n..], ',');
    var front := line[b..][..n + k];
    forall i | 0 <= i < n + k ensures front[i] != ',' {
      assert front[i] == line[b..][i];
      if i >= n {
        assert line[b..][i] == line[b + n..][..k][i - n];
      }
    }
    assert n + k < |line[b..]| ==> line[b..][n + k] == line[b + n..][k];
    IndexOfIs(line[b..], ',', n + k);
  }

  // ---------------------------------------------------------------- attribute lists

  /** Any name and any value; quotes are part of the value, as section 4.2 of RFC 8216 has it. */
  datatype Attr = Attr(name: string, value: string)

  function Text(a: Attr): string {
    a.name + "=" + a.value
  }

  function Render(attrs: seq<Attr>): string {
    if attrs == [] then "" else Text(attrs[0]) + (if |attrs| == 1 then "" else "," + Render(attrs[1..]))
  }

  /** Where attribute k starts in the rendered list. */
  function Start(attrs: seq<Attr>, k: nat): nat
    requires k < |attrs|
  {
    if k == 0 then 0 else |Text(attrs[0])| + 1 + Start(attrs[1..], k - 1)
  }

  function Line(tag: string, attrs: seq<Attr>): string {
    tag + ":" + Render(attrs)
  }

  /** Attribute k and what follows it. */
  lemma {:induction false} FromStart(attrs: seq<Attr>, k: nat)
    requires k < |attrs|
    ensures Start(attrs, k) <= |Render(attrs)|
    ensures Render(attrs)[Start(attrs, k)..] == Render(attrs[k..])
  {
    hide Text;
    if k > 0 {
      FromStart(attrs[1..], k - 1);
      assert attrs[1..][k - 1..] == attrs[k..];
      assert Render(attrs) == Text(attrs[0]) + "," + Render(attrs[1..]);
      assert Render(attrs)[Start(attrs, k)..] == Render(attrs[1..])[Start(attrs[1..], k - 1)..];
    } else {
      assert attrs[0..] == attrs;
    }
  }

  // ---------------------------------------------------------------- where a name is found

  /** attr= stands somewhere in the text. */
  ghost predicate Mentions(text: string, attr: string) {
    exists i: nat :: AttrAt(text, attr, i)
  }

  /** A name that can be asked for. */
  predicate IsName(attr: string) {
    attr != "" && ',' !in attr && ':' !in attr
  }

  /** A comma ends an attribute: in front of it attr= stands where it stands in the attribute alone. */
  lemma OnlyInside(text: string, rest: string, attr: string, i: nat)
    requires IsName(attr) && i <= |text|
    ensures AttrAt(text + "," + rest, attr, i) <==> AttrAt(text, attr, i)
  {
    var line := text + "," + rest;
    if i + |attr| < |text| {
      assert line[i..][..|attr|] == text[i..][..|attr|];
      assert forall j :: 0 <= j < |attr| ==> line[i..][j] == text[i..][j];
    } else if i < |text| || attr != "" {
      var j := |text| - i;
      assert line[i + j] == ',';
      if j < |attr| {
        assert attr[j] in attr && ToLower(attr[j]) != ',' && line[i..][j] == ',';
      }
    }
  }

  lemma Shifted(front: string, text: string, attr: string, i: nat)
    ensures AttrAt(front + text, attr, |front| + i) <==> AttrAt(text, attr, i)
  {
    if i <= |text| {
      assert (front + text)[|front| + i..] == text[i..];
    }
  }

  lemma RenderStep(attrs: seq<Attr>)
    requires |attrs| > 1
    ensures Render(attrs) == Text(attrs[0]) + "," + Render(attrs[1..])
  {
  }

  /** A mention in attribute j is one in the list. */
  lemma {:induction false} MentionedInList(attrs: seq<Attr>, attr: string, j: nat, k: nat, i: nat)
    requires IsName(attr) && j < k < |attrs| && AttrAt(Text(attrs[j]), attr, i)
    ensures Start(attrs, j) + i < Start(attrs, k) && AttrAt(Render(attrs), attr, Start(attrs, j) + i)
    ensures Start(attrs, j) + i < |Render(attrs)|
    decreases j
  {
    hide AttrAt, Text, IsName, Render;
    var text, rest := Text(attrs[0]), attrs[1..];
    RenderStep(attrs);
    if j == 0 {
      InText(text, attr, i);
      OnlyInside(text, Render(rest), attr, i);
    } else {
      MentionedInList(rest, attr, j - 1, k - 1, i);
      Shifted(text + ",", Render(rest), attr, Start(rest, j - 1) + i);
    }
  }

  lemma InText(text: string, attr: string, i: nat)
    requires AttrAt(text, attr, i)
    ensures i < |text|
  {
  }

  /** An occurrence in the list is a mention in the attribute it starts in. */
  lemma {:induction false} MentionedBy(attrs: seq<Attr>, attr: string, i: nat) returns (j: nat)
    requires IsName(attr) && attrs != [] && AttrAt(Render(attrs), attr, i)
    ensures j < |attrs| && Mentions(Text(attrs[j]), attr) && Start(attrs, j) <= i
    decreases |attrs|
  {
    hide AttrAt, Text, IsName, Render;
    var text, rest := Text(attrs[0]), attrs[1..];
    if rest == [] {
      OnlyOne(attrs);
      j := 0;
    } else {
      RenderStep(attrs);
      if i <= |text| {
        OnlyInside(text, Render(rest), attr, i);
        j := 0;
      } else {
        Shifted(text + ",", Render(rest), attr, i - |text| - 1);
        j := MentionedBy(rest, attr, i - |text| - 1);
        j := j + 1;
      }
    }
  }

  lemma OnlyOne(attrs: seq<Attr>)
    requires |attrs| == 1
    ensures Render(attrs) == Text(attrs[0])
  {
  }

  lemma {:induction false} StartGrows(attrs: seq<Attr>, j: nat, k: nat)
    requires j <= k < |attrs|
    ensures Start(attrs, j) <= Start(attrs, k)
    decreases j
  {
    if j > 0 {
      StartGrows(attrs[1..], j - 1, k - 1);
    }
  }

  /** Attribute a bears the name attr, whatever the case of the letters. */
  predicate Bears(a: Attr, attr: string) {
    |a.name| == |attr| && StartsWithFold(a.name, attr)
  }

  function Position(tag: string, attrs: seq<Attr>, k: nat): nat
    requires k < |attrs|
  {
    |tag| + 1 + Start(attrs, k)
  }

  /**
   * For every list: the scan stops at attribute k, which bears the name, exactly when no attribute
   * before it mentions the name in front of an equals sign.
   */
  lemma FoundIff(tag: string, attrs: seq<Attr>, attr: string, k: nat)
    requires IsName(attr) && k < |attrs| && Bears(attrs[k], attr)
    ensures FirstAttr(Line(tag, attrs), attr, |tag|) == Position(tag, attrs, k)
            <==> forall j :: 0 <= j < k ==> !Mentions(Text(attrs[j]), attr)
  {
    hide AttrAt, Text, IsName, Render, Start, Mentions, FirstAttr, Bears, ValueAt, IndexOf;
    AtPosition(tag, attrs, attr, k);
    var first := FirstAttr(Line(tag, attrs), attr, |tag|);
    if first < Position(tag, attrs, k) {
      var j := FoundEarlier(tag, attrs, attr, k);
    }
    forall j | 0 <= j < k && Mentions(Text(attrs[j]), attr)
      ensures first < Position(tag, attrs, k)
    {
      MentionedEarlier(tag, attrs, attr, j, k);
    }
  }

  lemma FoundEarlier(tag: string, attrs: seq<Attr>, attr: string, k: nat) returns (j: nat)
    requires IsName(attr) && k < |attrs| && FirstAttr(Line(tag, attrs), attr, |tag|) < Position(tag, attrs, k)
    ensures j < k && Mentions(Text(attrs[j]), attr)
  {
    hide AttrAt, Text, IsName, Render, Start, Mentions, FirstAttr;
    var i := FirstAttr(Line(tag, attrs), attr, |tag|);
    FromStart(attrs, k);
    NotAtColon(tag, Render(attrs), attr);
    InLine(tag, attrs, attr, i - |tag| - 1);
    j := MentionedBy(attrs, attr, i - |tag| - 1);
    if j >= k {
      StartGrows(attrs, k, j);
    }
  }

  lemma MentionedEarlier(tag: string, attrs: seq<Attr>, attr: string, j: nat, k: nat)
    requires IsName(attr) && j < k < |attrs| && Mentions(Text(attrs[j]), attr)
    ensures FirstAttr(Line(tag, attrs), attr, |tag|) < Position(tag, attrs, k)
  {
    hide AttrAt, Text, IsName, Render, Start, FirstAttr, Line, Position;
    var i: nat :| AttrAt(Text(attrs[j]), attr, i);
    MentionedAt(tag, attrs, attr, j, k, i);
  }

  lemma MentionedAt(tag: string, attrs: seq<Attr>, attr: string, j: nat, k: nat, i: nat)
    requires IsName(attr) && j < k < |attrs| && AttrAt(Text(attrs[j]), attr, i)
    ensures FirstAttr(Line(tag, attrs), attr, |tag|) < Position(tag, attrs, k)
  {
    hide *;
    MentionedInList(attrs, attr, j, k, i);
    var p := Start(attrs, j) + i;
    InLine(tag, attrs, attr, p);
    FirstNotBehind(Line(tag, attrs), attr, |tag|, |tag| + 1 + p);
    PositionIs(tag, attrs, k);
  }

  lemma InLine(tag: string, attrs: seq<Attr>, attr: string, p: nat)
    requires p < |Render(attrs)|
    ensures |Line(tag, attrs)| == |tag| + 1 + |Render(attrs)|
    ensures AttrAt(Line(tag, attrs), attr, |tag| + 1 + p) <==> AttrAt(Render(attrs), attr, p)
  {
    hide AttrAt, Render;
    Shifted(tag + ":", Render(attrs), attr, p);
  }

  lemma PositionIs(tag: string, attrs: seq<Attr>, k: nat)
    requires k < |attrs|
    ensures Position(tag, attrs, k) == |tag| + 1 + Start(attrs, k)
  {
  }

  lemma FirstNotBehind(line: string, attr: string, b: nat, p: nat)
    requires b <= p < |line| && AttrAt(line, attr, p)
    ensures FirstAttr(line, attr, b) <= p
  {
    hide FirstAttr, AttrAt;
  }

  lemma NotAtColon(tag: string, list: string, attr: string)
    requires IsName(attr)
    ensures !AttrAt(tag + ":" + list, attr, |tag|)
  {
    assert (tag + ":" + list)[|tag|..][0] == ':' && attr[0] in attr;
  }

  /** The name of attribute k stands at its position, then its value and the rest of the list. */
  lemma AtPosition(tag: string, attrs: seq<Attr>, attr: string, k: nat)
    requires k < |attrs| && Bears(attrs[k], attr)
    ensures var line, p, value := Line(tag, attrs), Position(tag, attrs, k), attrs[k].value;
            && p + |attr| < |line| && AttrAt(line, attr, p)
            && ValueAt(line, p + |attr| + 1) == value[..IndexOf(value, ',')]
            && (p + |attr| + 1 == |line| <==> k == |attrs| - 1 && value == "")
  {
    hide Start, Render, AttrAt, ValueAt;
    var rest := if k == |attrs| - 1 then "" else "," + Render(attrs[k + 1..]);
    FromStart(attrs, k);
    RenderedTail(attrs, k);
    DropTwice(tag, Render(attrs), Start(attrs, k));
    AttrBehind(Line(tag, attrs), attr, Position(tag, attrs, k), attrs[k].name, attrs[k].value, rest);
  }

  /**
   * For every list: when no attribute before it mentions the name, the value of attribute k up to its
   * first comma is returned, even inside quotes; an empty value at the end of the line counts as missing.
   * It is the whole value exactly when that has no comma.
   */
  lemma FoundIsValue(tag: string, attrs: seq<Attr>, attr: string, k: nat)
    requires ':' !in tag && IsName(attr) && k < |attrs| && Bears(attrs[k], attr)
    requires forall j :: 0 <= j < k ==> !Mentions(Text(attrs[j]), attr)
    ensures var value, missing := attrs[k].value, k == |attrs| - 1 && attrs[k].value == "";
            var found := Attribute(Line(tag, attrs), attr);
            && found == (if missing then None else Some(value[..IndexOf(value, ',')]))
            && (found == Some(value) <==> !missing && ',' !in value)
  {
    hide AttrAt, Text, IsName, Render, Bears, Start, Mentions, FirstAttr, ValueAt, IndexOf;
    FoundIff(tag, attrs, attr, k);
    AtPosition(tag, attrs, attr, k);
    ColonBehindTag(tag, Render(attrs));
    WholeIff(attrs[k].value);
  }

  /** A name no attribute mentions is not found. */
  lemma NotFound(tag: string, attrs: seq<Attr>, attr: string)
    requires ':' !in tag && IsName(attr) && attrs != []
    requires forall j :: 0 <= j < |attrs| ==> !Mentions(Text(attrs[j]), attr)
    ensures Attribute(Line(tag, attrs), attr) == None
  {
    hide AttrAt, Text, IsName, Render, Start, Mentions, FirstAttr, ValueAt, IndexOf;
    ColonBehindTag(tag, Render(attrs));
    NotAtColon(tag, Render(attrs), attr);
    var i := FirstAttr(Line(tag, attrs), attr, |tag|);
    if i < |Line(tag, attrs)| {
      InLine(tag, attrs, attr, i - |tag| - 1);
      var j := MentionedBy(attrs, attr, i - |tag| - 1);
    }
  }

  /** An attribute with one equals sign mentions the names its own name ends with. */
  lemma MentionIff(a: Attr, attr: string)
    requires '=' !in a.name && '=' !in a.value
    ensures Mentions(Text(a), attr) <==> |attr| <= |a.name| && StartsWithFold(a.name[|a.name| - |attr|..], attr)
  {
    var text, n := Text(a), |a.name|;
    forall m | 0 <= m < |text| && m != n ensures text[m] != '=' {
      assert m < n ==> text[m] == a.name[m];
      assert m > n ==> text[m] == a.value[m - n - 1];
    }
    if |attr| <= n {
      var front := a.name[n - |attr|..];
      assert text[n - |attr|..] == front + "=" + a.value;
      assert forall j :: 0 <= j < |attr| ==> text[n - |attr|..][j] == front[j];
      assert StartsWithFold(front, attr) <==> AttrAt(text, attr, n - |attr|);
    }
  }

  lemma WholeIff(value: string)
    ensures value[..IndexOf(value, ',')] == value <==> ',' !in value
  {
    if IndexOf(value, ',') == |value| {
      assert value[..|value|] == value;
    }
  }

  lemma ColonBehindTag(tag: string, list: string)
    requires ':' !in tag
    ensures IndexOf(tag + ":" + list, ':') == |tag|
  {
    var line := tag + ":" + list;
    assert line[..|tag|] == tag && line[|tag|] == ':';
    IndexOfIs(line, ':', |tag|);
  }

  lemma DropTwice(tag: string, list: string, k: nat)
    requires k <= |list|
    ensures (tag + ":" + list)[|tag| + 1 + k..] == list[k..]
  {
  }

  lemma AttrBehind(line: string, attr: string, p: nat, name: string, value: string, rest: string)
    requires p <= |line| && line[p..] == name + "=" + value + rest
    requires |attr| == |name| && StartsWithFold(name, attr)
    requires rest == "" || rest[0] == ','
    ensures p + |attr| < |line| && AttrAt(line, attr, p)
    ensures ValueAt(line, p + |attr| + 1) == value[..IndexOf(value, ',')]
    ensures p + |attr| + 1 == |line| <==> value + rest == ""
  {
    hide StartsWithFold, IndexOf, ValueAt;
    var behind := value + rest;
    assert line[p..] == name + "=" + behind;
    NameBehind(line[p..], attr, name, behind);
    assert line[p + |attr| + 1..] == line[p..][|attr| + 1..];
    ValueBehind(line, p + |attr| + 1, value, rest);
  }

  lemma ValueBehind(line: string, b: nat, value: string, rest: string)
    requires b <= |line| && line[b..] == value + rest && (rest == "" || rest[0] == ',')
    ensures ValueAt(line, b) == value[..IndexOf(value, ',')]
  {
    hide IndexOf;
    UpToComma(value, rest);
    assert line[b..b + IndexOf(value, ',')] == line[b..][..IndexOf(value, ',')];
  }

  lemma NameBehind(text: string, attr: string, name: string, behind: string)
    requires text == name + "=" + behind && |attr| == |name| && StartsWithFold(name, attr)
    ensures StartsWithFold(text, attr) && text[|attr|] == '=' && text[|attr| + 1..] == behind
  {
    assert forall i :: 0 <= i < |attr| ==> text[i] == name[i];
  }

  lemma UpToComma(value: string, rest: string)
    requires rest == "" || rest[0] == ','
    ensures IndexOf(value + rest, ',') == IndexOf(value, ',')
    ensures (value + rest)[..IndexOf(value, ',')] == value[..IndexOf(value, ',')]
  {
    var i := IndexOf(value, ',');
    assert (value + rest)[..i] == value[..i];
    IndexOfIs(value + rest, ',', i);
  }

  lemma {:induction false} FirstAttrIs(line: string, attr: string, b: nat, p: nat)
    requires b <= p < |line| && AttrAt(line, attr, p)
    requires forall i :: b <= i < p ==> !AttrAt(line, attr, i)
    ensures FirstAttr(line, attr, b) == p
    decreases p - b
  {
    if b < p {
      FirstAttrIs(line, attr, b + 1, p);
    }
  }

  lemma RenderedTail(attrs: seq<Attr>, k: nat)
    requires k < |attrs|
    ensures Render(attrs[k..]) == attrs[k].name + "=" + attrs[k].value
                                  + (if k == |attrs| - 1 then "" else "," + Render(attrs[k + 1..]))
  {
    assert attrs[k..][1..] == attrs[k + 1..];
    if k < |attrs| - 1 {
      RenderStep(attrs[k..]);
    }
  }

  lemma NotAt(line: string, attr: string, i: nat)
    requires i < |line| && attr != "" && ToLower(line[i]) != ToLower(attr[0])
    ensures !AttrAt(line, attr, i)
  {
    assert line[i..][0] == line[i];
  }

  /** The name is looked for everywhere, not only where an attribute starts: here inside another name. */
  lemma FoundInsideName()
    ensures Attribute("T:XU=0,U=1", "U") == Some("0")
  {
    hide AttrAt, FirstAttr, ValueAt, StartsWithFold, IndexOf;
    var line := "T:XU=0,U=1";
    assert "T" + ":" + "XU=0,U=1" == line;
    ColonBehindTag("T", "XU=0,U=1");
    NotAt(line, "U", 1);
    NotAt(line, "U", 2);
    assert line[3..] == "U" + "=" + "0" + ",U=1";
    FoldSame("U");
    AttrBehind(line, "U", 3, "U", "0", ",U=1");
    NoComma("0");
    FirstAttrIs(line, "U", 1, 3);
  }

  lemma NoComma(value: string)
    requires ',' !in value
    ensures value[..IndexOf(value, ',')] == value
  {
    WholeIff(value);
  }

  lemma FoldSame(s: string)
    ensures StartsWithFold(s, s)
  {
  }

  /** A quoted value is cut at a comma inside the quotes. */
  lemma CutInsideQuotes()
    ensures Attribute(Line("T", [Attr("U", "\"a,b\"")]), "U") == Some("\"a")
  {
    hide AttrAt, FirstAttr, Render, Mentions, ValueAt;
    var value := "\"a,b\"";
    FoldSame("U");
    FoundIsValue("T", [Attr("U", value)], "U", 0);
    assert value[..2] == "\"a";
    IndexOfIs(value, ',', 2);
  }
}
