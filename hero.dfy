/**
  The hero section's derived values: the stack line under the title, the initials shown
  when there is no avatar picture, which of picture and initials is visible (before and
  after the picture fails to load), and the compact or full-screen padding.
*/
module Hero {
  import opened Text
  import About

  const DefaultName := "Kelvin Machaka"

  const DefaultStacks: seq<string> := ["React", "TypeScript", "Django", "Node.js"]

  /** The separator between stack names: space, bullet, space. */
  const Bullet := " \U{2022} "

  /** `stacks.join(" • ")`. */
  function StacksLine(stacks: seq<string>): string {
    Join(stacks, Bullet)
  }

  /** No stacks give an empty line and one stack gives its own name; each further stack
      adds a bullet and its name, so the line is as long as the names plus three characters
      per bullet. */
  lemma {:induction false} StacksLineShape(stacks: seq<string>, more: string)
    ensures StacksLine([]) == ""
    ensures |stacks| == 1 ==> StacksLine(stacks) == stacks[0]
    ensures |stacks| >= 1 ==> StacksLine(stacks + [more]) == StacksLine(stacks) + Bullet + more
    ensures |stacks| >= 1 ==> |StacksLine(stacks)| == SumLengths(stacks) + 3 * (|stacks| - 1)
  {
    if |stacks| >= 1 {
      JoinSnoc(stacks, more, Bullet);
      JoinLength(stacks, Bullet);
    }
  }

  /** The default line reads "React • TypeScript • Django • Node.js". */
  lemma {:induction false} DefaultStacksLine()
    ensures StacksLine(DefaultStacks) ==
      "React" + Bullet + "TypeScript" + Bullet + "Django" + Bullet + "Node.js"
  {
    assert DefaultStacks[1..] == ["TypeScript", "Django", "Node.js"];
    assert DefaultStacks[1..][1..] == ["Django", "Node.js"];
    assert DefaultStacks[1..][1..][1..] == ["Node.js"];
  }

  // ---------------------------------------------------------------------------------------
  // Initials

  /** `n?.[0] ?? ""` on a piece of the split. */
  function Head(piece: string): string {
    if piece == "" then "" else [piece[0]]
  }

  /** The hero's initials: the first character of each of the first two space-separated
      pieces (an empty piece giving ""), joined and upper-cased. */
  function Initials(name: string): string {
    var pieces := Split(name, ' ');
    Upper(Join(About.TakeTwo(seq(|pieces|, i requires 0 <= i < |pieces| => Head(pieces[i]))), ""))
  }

  lemma {:induction false} JoinHeads(pieces: seq<string>)
    ensures Join(seq(|pieces|, i requires 0 <= i < |pieces| => Head(pieces[i])), "")
      == About.JoinChars(seq(|pieces|, i requires 0 <= i < |pieces| => About.FirstChar(pieces[i])))
    decreases |pieces|
  {
    if pieces != [] {
      var hs := seq(|pieces|, i requires 0 <= i < |pieces| => Head(pieces[i]));
      var cs := seq(|pieces|, i requires 0 <= i < |pieces| => About.FirstChar(pieces[i]));
      var rest := pieces[1..];
      JoinHeads(rest);
      assert hs[1..] == seq(|rest|, i requires 0 <= i < |rest| => Head(rest[i]));
      assert cs[1..] == seq(|rest|, i requires 0 <= i < |rest| => About.FirstChar(rest[i]));
      if |pieces| > 1 {
        assert Join(hs, "") == hs[0] + "" + Join(hs[1..], "");
      }
    }
  }

  /** The hero and the about section compute the same initials for every name, although
      one maps an empty piece to "" and the other to `undefined`. */
  lemma {:induction false} InitialsAgree(name: string)
    ensures Initials(name) == About.Initials(name)
  {
    var pieces := Split(name, ' ');
    var t := if |pieces| <= 2 then pieces else pieces[..2];
    var hs := seq(|pieces|, i requires 0 <= i < |pieces| => Head(pieces[i]));
    var cs := seq(|pieces|, i requires 0 <= i < |pieces| => About.FirstChar(pieces[i]));
    JoinHeads(t);
    assert About.TakeTwo(hs) == seq(|t|, i requires 0 <= i < |t| => Head(t[i]));
    assert About.TakeTwo(cs) == seq(|t|, i requires 0 <= i < |t| => About.FirstChar(t[i]));
  }

  /** There are never more than two initials. */
  lemma {:induction false} InitialsAtMostTwo(name: string)
    ensures |Initials(name)| <= 2
  {
    InitialsAgree(name);
    About.InitialsAtMostTwo(name);
  }

  /** The default name gives "KM". */
  lemma {:induction false} DefaultInitials()
    ensures Initials(DefaultName) == "KM"
  {
    InitialsAgree(DefaultName);
    About.DefaultInitials();
  }

  // ---------------------------------------------------------------------------------------
  // Avatar

  /** What the avatar slot renders: whether the picture element exists and is displayed,
      the fallback's CSS display, and its `aria-hidden`. */
  datatype Avatar = Avatar(
    imageRendered: bool,
    imageDisplayed: bool,
    fallbackDisplay: string,
    fallbackAriaHidden: bool)

  /** The picture shown when the caller passes no `avatarUrl`. */
  const DefaultAvatarUrl := "/projects/profile.png"

  /** How a caller passes `avatarUrl`: not at all (`undefined`, so the default applies),
      as `null`, or as a string. */
  datatype AvatarProp = Omitted | Null | Url(url: string)

  /** The value the component sees after its parameter default: a default replaces only
      `undefined`, so `null` stays absent. */
  function AvatarUrlOf(p: AvatarProp): Option<string> {
    match p
    case Omitted => Some(DefaultAvatarUrl)
    case Null => None
    case Url(u) => Some(u)
  }

  /** The first render: `avatarUrl` is truthy when present and non-empty. */
  function RenderAvatar(avatarUrl: Option<string>): Avatar {
    var hasUrl := avatarUrl.Some? && avatarUrl.value != "";
    Avatar(hasUrl, hasUrl, if hasUrl then "none" else "flex", hasUrl)
  }

  /** The picture's error handler: hide the picture, show the fallback. `aria-hidden` is
      not touched. */
  function OnImageError(a: Avatar): Avatar {
    a.(imageDisplayed := false, fallbackDisplay := "flex")
  }

  predicate ImageVisible(a: Avatar) {
    a.imageRendered && a.imageDisplayed
  }

  predicate FallbackVisible(a: Avatar) {
    a.fallbackDisplay == "flex"
  }

  /** On the first render exactly one of picture and initials is visible: the initials
      iff there is no URL; they are hidden from assistive technology iff there is one. */
  lemma {:induction false} AvatarOrInitials(avatarUrl: Option<string>)
    ensures FallbackVisible(RenderAvatar(avatarUrl)) != ImageVisible(RenderAvatar(avatarUrl))
    ensures FallbackVisible(RenderAvatar(avatarUrl)) <==> avatarUrl == None || avatarUrl == Some("")
    ensures RenderAvatar(avatarUrl).fallbackAriaHidden <==> !FallbackVisible(RenderAvatar(avatarUrl))
  {
  }

  /** Without an `avatarUrl` prop the default picture is shown and the initials are
      hidden; the initials show on the first render only for `null` or an empty string. */
  lemma {:induction false} DefaultAvatarShowsPicture(p: AvatarProp)
    ensures p.Omitted? ==> ImageVisible(RenderAvatar(AvatarUrlOf(p))) && !FallbackVisible(RenderAvatar(AvatarUrlOf(p)))
    ensures FallbackVisible(RenderAvatar(AvatarUrlOf(p))) <==> p == Null || p == Url("")
  {
    AvatarOrInitials(AvatarUrlOf(p));
  }

  /** After a load failure the initials show instead of the picture, still with the
      `aria-hidden` of the first render. */
  lemma {:induction false} BrokenImageShowsInitials(avatarUrl: Option<string>)
    ensures !ImageVisible(OnImageError(RenderAvatar(avatarUrl)))
    ensures FallbackVisible(OnImageError(RenderAvatar(avatarUrl)))
    ensures OnImageError(RenderAvatar(avatarUrl)).fallbackAriaHidden
      == RenderAvatar(avatarUrl).fallbackAriaHidden
  {
  }

  /** The section's vertical sizing. */
  function SectionSizing(compact: bool): string {
    if compact then "py-12" else "min-h-screen py-24"
  }

  /** Only the non-compact layout takes the full screen height. */
  lemma {:induction false} CompactSizing(compact: bool)
    ensures Includes(SectionSizing(compact), "min-h-screen") <==> !compact
  {
    if compact {
      IncludesIff("py-12", "min-h-screen");
    } else {
      assert "min-h-screen" <= "min-h-screen py-24";
    }
  }
}
