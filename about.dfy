/**
  The about section's small helpers: the initials shown in the profile card and the
  case-insensitive lookups that pick a logo for each stack entry and an icon for each
  bullet of the "What I do" list.
*/
module About {
  import opened Text

  const DefaultName := "Kelvin Machaka"

  const DefaultStacks: seq<string> :=
    ["MongoDB", "Express", "React", "Node.js", "Django", "Figma", "TypeScript"]

  // ---------------------------------------------------------------------------------------
  // Initials

  /** `n[0]` on a piece of the split: `undefined` for an empty piece. */
  function FirstChar(piece: string): Option<char> {
    if piece == "" then None else Some(piece[0])
  }

  /** `join("")` over characters that may be `undefined`, which join as the empty string. */
  function JoinChars(cs: seq<Option<char>>): string {
    if cs == [] then ""
    else (if cs[0].Some? then [cs[0].value] else "") + JoinChars(cs[1..])
  }

  /** At most the first two elements: `slice(0, 2)`. */
  function TakeTwo<T>(xs: seq<T>): (r: seq<T>)
    ensures |r| == if |xs| < 2 then |xs| else 2
    ensures r <= xs
  {
    if |xs| <= 2 then xs else xs[..2]
  }

  /** `initials(name)`: the first character of each of the first two space-separated
      pieces, upper-cased. */
  function Initials(name: string): string {
    var pieces := Split(name, ' ');
    Upper(JoinChars(TakeTwo(seq(|pieces|, i requires 0 <= i < |pieces| => FirstChar(pieces[i])))))
  }

  /** The first characters of the first one or two pieces, upper-cased; an empty piece
      contributes nothing but still takes its slot. */
  lemma {:induction false} InitialsOfPieces(name: string)
    ensures var pieces := Split(name, ' ');
      Initials(name) == Upper(
        (if pieces[0] == "" then "" else [pieces[0][0]])
        + (if |pieces| < 2 || pieces[1] == "" then "" else [pieces[1][0]]))
  {
    var pieces := Split(name, ' ');
    var cs := seq(|pieces|, i requires 0 <= i < |pieces| => FirstChar(pieces[i]));
    var t := TakeTwo(cs);
    var first := if pieces[0] == "" then "" else [pieces[0][0]];
    assert t[0] == FirstChar(pieces[0]);
    assert JoinChars(t) == first + JoinChars(t[1..]);
    if |pieces| >= 2 {
      var second := if pieces[1] == "" then "" else [pieces[1][0]];
      assert |t| == 2 && t[1..][0] == FirstChar(pieces[1]);
      assert t[1..][1..] == [];
      assert JoinChars(t[1..]) == second + JoinChars(t[1..][1..]);
    } else {
      assert t[1..] == [];
    }
  }

  /** There are never more than two initials. */
  lemma {:induction false} InitialsAtMostTwo(name: string)
    ensures |Initials(name)| <= 2
  {
    InitialsOfPieces(name);
  }

  /** The empty name has no initials. */
  lemma {:induction false} InitialsOfEmpty()
    ensures Initials("") == ""
  {
    InitialsOfPieces("");
  }

  /** A single word gives its first letter, upper-cased. */
  lemma {:induction false} InitialsOfWord(w: string)
    requires w != "" && ' ' !in w
    ensures Initials(w) == [UpperChar(w[0])]
  {
    SplitNoSeparator(w, ' ');
    InitialsOfPieces(w);
  }

  /** Two words give both first letters, upper-cased, whatever follows them. */
  lemma {:induction false} InitialsOfTwoWords(a: string, b: string, rest: string)
    requires a != "" && b != "" && ' ' !in a && ' ' !in b
    ensures Initials(a + " " + b + rest) == [UpperChar(a[0]), UpperChar(b[0])]
  {
    var name := a + " " + b + rest;
    var b' := b + rest;
    assert name == a + [' '] + b';
    SplitAtSeparator(a, b', ' ');
    var tail := Split(b', ' ');
    assert tail[0][0] == b[0] by {
      JoinSplit(b', ' ');
      FirstPieceStarts(b', ' ');
    }
    InitialsOfPieces(name);
  }

  /** The first piece of a split starts with the string's first character when that is
      not the separator. */
  lemma {:induction false} FirstPieceStarts(s: string, c: char)
    requires s != "" && s[0] != c
    ensures Split(s, c)[0] != "" && Split(s, c)[0][0] == s[0]
  {
  }

  /** The default name gives "KM". */
  lemma {:induction false} DefaultInitials()
    ensures Initials(DefaultName) == "KM"
  {
    assert DefaultName == "Kelvin" + " " + "Machaka" + "";
    InitialsOfTwoWords("Kelvin", "Machaka", "");
    assert [UpperChar('K'), UpperChar('M')] == "KM";
  }

  /** Two spaces in a row make an empty second piece, so "A  B" gives just "A". */
  lemma {:induction false} InitialsDoubleSpace(a: string, rest: string)
    requires a != "" && ' ' !in a
    ensures Initials(a + "  " + rest) == [UpperChar(a[0])]
  {
    var name := a + "  " + rest;
    assert name == a + [' '] + (" " + rest);
    SplitAtSeparator(a, " " + rest, ' ');
    assert " " + rest == [] + [' '] + rest;
    SplitAtSeparator([], rest, ' ');
    InitialsOfPieces(name);
  }

  // ---------------------------------------------------------------------------------------
  // Logos and icons

  datatype Logo = ReactLogo | NodeLogo | MongoLogo | ExpressMark | DjangoMark | FigmaLogo
                | TypeScriptMark | Dot

  /** `LogoBadge`: a `switch` on the lower-cased stack name. */
  function LogoFor(name: string): Logo {
    var key := Lower(name);
    if key == "react" then ReactLogo
    else if key == "node.js" || key == "node" then NodeLogo
    else if key == "mongodb" || key == "mongo" then MongoLogo
    else if key == "express" then ExpressMark
    else if key == "django" then DjangoMark
    else if key == "figma" then FigmaLogo
    else if key == "typescript" || key == "ts" then TypeScriptMark
    else Dot
  }

  /** The lower-case spellings the lookup knows. */
  const LogoKeys: set<string> :=
    {"react", "node.js", "node", "mongodb", "mongo", "express", "django", "figma",
     "typescript", "ts"}

  /** Names that differ only in letter case get the same logo. */
  lemma {:induction false} LogoIgnoresCase(a: string, b: string)
    requires Lower(a) == Lower(b)
    ensures LogoFor(a) == LogoFor(b)
    ensures LogoFor(Upper(a)) == LogoFor(a)
  {
    LowerOfUpper(a);
  }

  /** A name gets the default dot exactly when its lower-cased form is not a known key. */
  lemma {:induction false} LogoDefaultIff(name: string)
    ensures LogoFor(name) == Dot <==> Lower(name) !in LogoKeys
  {
    var key := Lower(name);
    assert key in LogoKeys <==>
      key == "react" || key == "node.js" || key == "node" || key == "mongodb"
      || key == "mongo" || key == "express" || key == "django" || key == "figma"
      || key == "typescript" || key == "ts";
  }

  /** The aliases: any spelling of "node" and "node.js", of "mongo" and "mongodb", and of
      "ts" and "typescript" share a logo. */
  lemma {:induction false} LogoAliases(a: string, b: string)
    ensures Lower(a) == "node" && Lower(b) == "node.js" ==> LogoFor(a) == LogoFor(b) == NodeLogo
    ensures Lower(a) == "mongo" && Lower(b) == "mongodb" ==> LogoFor(a) == LogoFor(b) == MongoLogo
    ensures Lower(a) == "ts" && Lower(b) == "typescript" ==>
      LogoFor(a) == LogoFor(b) == TypeScriptMark
  {
  }

  /** The lookup keys of the default stack entries. */
  lemma {:induction false} DefaultStackKeys()
    ensures Lower(DefaultStacks[0]) == "mongodb"
    ensures Lower(DefaultStacks[1]) == "express"
    ensures Lower(DefaultStacks[2]) == "react"
    ensures Lower(DefaultStacks[3]) == "node.js"
    ensures Lower(DefaultStacks[4]) == "django"
    ensures Lower(DefaultStacks[5]) == "figma"
    ensures Lower(DefaultStacks[6]) == "typescript"
  {
  }

  /** The logo of each default stack entry. */
  lemma {:induction false} DefaultStackLogos()
    ensures LogoFor(DefaultStacks[0]) == MongoLogo
    ensures LogoFor(DefaultStacks[1]) == ExpressMark
    ensures LogoFor(DefaultStacks[2]) == ReactLogo
    ensures LogoFor(DefaultStacks[3]) == NodeLogo
    ensures LogoFor(DefaultStacks[4]) == DjangoMark
    ensures LogoFor(DefaultStacks[5]) == FigmaLogo
    ensures LogoFor(DefaultStacks[6]) == TypeScriptMark
  {
    DefaultStackKeys();
  }

  /** No default stack entry falls back to the dot. */
  lemma {:induction false} DefaultStacksHaveLogos()
    ensures forall i :: 0 <= i < |DefaultStacks| ==> LogoFor(DefaultStacks[i]) != Dot
  {
    DefaultStackLogos();
  }

  datatype Icon = FrontendIcon | BackendIcon | Circle

  /** `IconSmall`: a `switch` on the lower-cased name. */
  function IconFor(name: string): Icon {
    var key := Lower(name);
    if key == "frontend" then FrontendIcon
    else if key == "backend" then BackendIcon
    else Circle
  }

  /** The icon lookup ignores case, and the card's three bullets get the frontend icon,
      the backend icon and the default circle. */
  lemma {:induction false} IconLookup(a: string, b: string)
    requires Lower(a) == Lower(b)
    ensures IconFor(a) == IconFor(b)
    ensures IconFor("frontend") == FrontendIcon
    ensures IconFor("backend") == BackendIcon
    ensures IconFor("infra") == Circle
  {
  }
}
