# Portfolio site components, modelled in Dafny

This project models the logic inside the React components of a one-page developer portfolio.

**Contact form (`Contact`)**
- The email and message validators.
- The `canSubmit` gate that enables the button.
- The ordered checks of `handleSubmit` (honeypot, then email, then message), the JSON request it posts, and its handling of the relay's answer.
- The booking and pricing dialogs.

**Project search (`Projects`)**
- The trimmed, case-insensitive substring filter over the three featured projects.
- The "All" plus distinct-tags chip row, built from an insertion-ordered `Set`.

**Skills grid (`Skills`)**
- The skill list and its categories.
- The category filter and the chip captions.
- The heading ids and the keyword badges.

**Navigation bar (`Navbar`)**
- The backdrop and slide-away reaction to scrolling.
- The mobile menu.

**Theme switch (`Theme`)**
- How the initial theme is resolved from the page class, local storage and the system colour-scheme preference.
- The effect that writes it back, and the toggle.

**About section (`About`) and hero section (`Hero`)**
- The initials.
- The case-insensitive logo and icon lookups.
- The stack line.
- Which of the avatar picture and the initials is visible.

**Shared modules**
- `Text` models the JavaScript string built-ins these components rely on: `trim`, regex `\s`, `toLowerCase`/`toUpperCase`, `includes`, `length` in UTF-16 code units, `split` on one character, `join`, and `replace(/\s+/g, …)`.
- `Text.IndexOf` is a helper for the email matcher, which stands in for the regular expression at src/components/ContactSection.jsx:50. The components never call `indexOf` themselves.
- `Lists` models `Array.prototype.filter` and the insertion-ordered `Set`.

Components whose fields React updates in place are classes: `Contact.ContactForm`, `Navbar.NavbarState` and `Theme.ThemeToggle`. Their methods are proved against pure step functions. The rest is functions and lemmas.

Inputs that come from outside the program are parameters:
- the scroll offset;
- the relay's response, or the rejection's message;
- the contents of local storage;
- the `matchMedia` answer;
- whether the root element already carries `dark`.

## Model

| member | source | states |
|---|---|---|
| Text.IsSpace | src/components/ContactSection.jsx:51 | the ECMAScript WhiteSpace and LineTerminator code points, which regex `\s` matches and `trim` removes; the trim and replace lemmas below rest on it |
| Text.LowerChar | src/components/ContactSection.jsx:50 | each ASCII capital becomes the small letter at the same place in the alphabet; every other character is unchanged; whitespace is never touched and no capital is left |
| Text.UpperChar | src/components/AboutSection.jsx:189 | each ASCII small letter becomes the capital at the same place in the alphabet; every other character is unchanged; whitespace is never touched and no small letter is left |
| Text.Lower | src/components/ContactSection.jsx:50 | `toLowerCase` keeps the length and maps every character by `LowerChar` |
| Text.Upper | src/components/AboutSection.jsx:189 | `toUpperCase` keeps the length and maps every character by `UpperChar` |
| Text.LowerIdempotent | src/components/ProjectsSection.jsx:61 | lower-casing twice is lower-casing once |
| Text.LowerOfUpper | src/components/AboutSection.jsx:196 | lower-casing forgets an earlier upper-casing |
| Text.LowerKeepsNoSpace | src/components/SkillSection.jsx:110 | lower-casing a string without whitespace creates none |
| Text.LowerConcat | src/components/ProjectsSection.jsx:66 | lower-casing distributes over concatenation |
| Text.LowerSlice | src/components/ContactSection.jsx:50 | lower-casing commutes with taking a slice |
| Text.TrimStart | src/components/ContactSection.jsx:51 | the result is a suffix of the input that starts with non-whitespace, and everything cut off is whitespace |
| Text.TrimEnd | src/components/ContactSection.jsx:51 | the result is a prefix of the input that ends with non-whitespace, and everything cut off is whitespace |
| Text.Trim | src/components/ContactSection.jsx:51 | `trim` is no longer than its input, and its result is empty or starts and ends with non-whitespace |
| Text.TrimShape | src/components/ContactSection.jsx:51 | `trim` returns the slice between a whitespace-only prefix and a whitespace-only suffix, and that slice starts and ends with non-whitespace |
| Text.TrimNoSpace | src/components/ContactSection.jsx:110 | a string without whitespace is its own `trim` |
| Text.TrimStartAllSpace | src/components/ProjectsSection.jsx:61-62 | trimming the front of an all-whitespace string leaves nothing |
| Text.TrimEndAllSpace | src/components/ProjectsSection.jsx:61-62 | trimming the end of an all-whitespace string leaves nothing |
| Text.TrimEmptyIff | src/components/ProjectsSection.jsx:61-62 | `trim` gives "" exactly when the string is all whitespace |
| Text.TrimStartAppend | src/components/ContactSection.jsx:51 | trimming the front of `x + y` when `x` is all whitespace, and when it is not |
| Text.TrimEndAppendSpace | src/components/ContactSection.jsx:51 | trailing whitespace does not survive trimming the end |
| Text.TrimIgnoresPadding | src/components/ContactSection.jsx:51 | surrounding whitespace never changes `trim` |
| Text.TrimIdempotent | src/components/ContactSection.jsx:109-111 | `trim` is idempotent |
| Text.TrimStartLower | src/components/ProjectsSection.jsx:61 | trimming the front commutes with lower-casing |
| Text.TrimEndLower | src/components/ProjectsSection.jsx:61 | trimming the end commutes with lower-casing |
| Text.TrimLowerCommute | src/components/ProjectsSection.jsx:61 | `trim().toLowerCase()` equals `toLowerCase().trim()` |
| Text.Utf16Length | src/components/ContactSection.jsx:51 | a string's JavaScript `length` in UTF-16 code units lies between its number of characters and twice that |
| Text.Utf16LengthOfBmp | src/components/ContactSection.jsx:51 | for text inside the Basic Multilingual Plane the JavaScript `length` is the number of characters |
| Text.IndexOf | src/components/ContactSection.jsx:50 | the position of the first occurrence, or the length when the character is absent |
| Text.IndexOfIsFirst | src/components/ContactSection.jsx:50 | a position holding `c` with no `c` before it is the first occurrence |
| Text.Includes | src/components/ProjectsSection.jsx:64-66 | `includes`: some suffix of the haystack starts with the needle; `IncludesIff` equates it with an occurrence at some offset |
| Text.IncludesIff | src/components/ProjectsSection.jsx:63-67 | `includes` holds exactly when the needle occurs at some offset of the haystack |
| Text.IncludesEmpty | src/components/ProjectsSection.jsx:62 | every string includes "" |
| Text.IncludesTransitive | src/components/ProjectsSection.jsx:63-67 | a substring of a substring is a substring |
| Text.IncludesLower | src/components/ProjectsSection.jsx:63-67 | lower-casing keeps an inclusion |
| Text.Split | src/components/HeroSection.jsx:32 | `split` gives at least one piece, and no piece holds the separator |
| Text.JoinSplit | src/components/AboutSection.jsx:185-188 | joining the pieces of a split with the separator gives the string back |
| Text.SplitNoSeparator | src/components/AboutSection.jsx:185 | a string without the separator splits into itself alone |
| Text.SplitAtSeparator | src/components/AboutSection.jsx:185 | the text before the first separator is the first piece, and the rest splits on its own |
| Text.SplitJoin | src/components/ProjectsSection.jsx:66 | splitting a join gives the pieces back when no piece holds the separator |
| Text.Join | src/components/HeroSection.jsx:30 | `join`: the pieces with the separator between neighbours; `JoinSnoc`, `JoinLength` and `JoinSplit` state its shape, length and inverse |
| Text.JoinSnoc | src/components/HeroSection.jsx:30 | joining one more piece appends the separator and the piece |
| Text.JoinLength | src/components/HeroSection.jsx:30 | a join is as long as its pieces plus one separator between each neighbouring pair |
| Text.ReplaceSpaceRunsNoSpace | src/components/SkillSection.jsx:104 | replacing every whitespace run with a non-whitespace character leaves no whitespace |
| Text.ReplaceSpaceRunsIdentity | src/components/SkillSection.jsx:110 | a string without whitespace is left unchanged |
| Text.ReplaceSpaceRuns | src/components/SkillSection.jsx:110 | `replace(/\s+/g, rep)`; `ReplaceSpaceRunsAt`, `ReplaceSpaceRunsNoSpace` and `ReplaceSpaceRunsIdentity` state what it does |
| Text.ReplaceSpaceRunsAt | src/components/SkillSection.jsx:110 | a maximal whitespace run, of any length, between two parts becomes exactly one `rep`, and the parts on either side are replaced on their own |
| Lists.Filter | src/components/ProjectsSection.jsx:60 | the result is no longer than the input; it holds exactly the elements that pass the test, each as many times as in the input, and no other element |
| Lists.FilterIsSubsequence | src/components/SkillSection.jsx:66 | a filter keeps the order of what it keeps |
| Lists.FilterKeepAll | src/components/ProjectsSection.jsx:62 | a test that passes everything returns the array unchanged |
| Lists.FilterSameTest | src/components/ProjectsSection.jsx:60-68 | tests that agree on every element filter alike |
| Lists.FilterStricter | src/components/ProjectsSection.jsx:60-68 | a stricter test keeps a subsequence of what a looser one keeps |
| Lists.SubsequenceMembers | src/components/ProjectsSection.jsx:60-68 | everything in a subsequence is in the original |
| Lists.FirstIndex | src/components/ProjectsSection.jsx:56 | the first position holding `x`, or the length when absent |
| Lists.Distinct | src/components/ProjectsSection.jsx:55-57 | `Array.from` of a `Set` filled in order: each element once, where it first occurred; `DistinctSpec` states this |
| Lists.DistinctSpec | src/components/ProjectsSection.jsx:55-57 | an insertion-ordered `Set` holds exactly the added elements, each once, ordered by first insertion |
| Lists.DistinctOfDistinctElements | src/components/ProjectsSection.jsx:55-57 | adding distinct elements to a `Set` keeps them all in order |
| Contact.MatchesEmailPattern | src/components/ContactSection.jsx:50 | the regular expression `^[^\s@]+@[^\s@]+\.[^\s@]+$` as a matcher: one `@`, an atom run before it, and after it an atom run with an inner dot; `EmailPatternMeaning` equates it with the `a@b.c` shape |
| Contact.IsValidEmail | src/components/ContactSection.jsx:50 | `isValidEmail` tests the pattern against the lower-cased text; `ValidEmailIff` gives its meaning |
| Contact.EmailPatternSound | src/components/ContactSection.jsx:50 | whatever the matcher accepts has the shape `a@b.c` with three runs of non-whitespace, non-`@` characters |
| Contact.EmailPatternComplete | src/components/ContactSection.jsx:50 | every text of the shape `a@b.c` is accepted by the matcher |
| Contact.EmailPatternMeaning | src/components/ContactSection.jsx:50 | the matcher accepts exactly the texts of the shape `a@b.c` |
| Contact.LowerKeepsAtomRun | src/components/ContactSection.jsx:50 | lower-casing neither creates nor removes `@` or whitespace |
| Contact.LowerKeepsInnerDot | src/components/ContactSection.jsx:50 | lower-casing neither creates nor removes an inner dot |
| Contact.EmailCaseInsensitive | src/components/ContactSection.jsx:50 | testing the lower-cased text gives the same verdict as testing the text as typed |
| Contact.ValidEmailIff | src/components/ContactSection.jsx:50 | `isValidEmail` holds exactly for the texts of the shape `a@b.c` |
| Contact.ValidEmailOneAtNoSpace | src/components/ContactSection.jsx:50 | a valid email holds exactly one `@` and no whitespace |
| Contact.IsMessageLongEnough | src/components/ContactSection.jsx:51 | `isMessageLongEnough`: the trimmed text is at least ten UTF-16 code units long |
| Contact.MessageCheckIgnoresPadding | src/components/ContactSection.jsx:51 | surrounding whitespace never counts towards the ten code units |
| Contact.LengthCountsCodeUnits | src/components/ContactSection.jsx:51 | five emoji outside the Basic Multilingual Plane pass the check: five characters, but ten code units |
| Contact.Form.Set | src/components/ContactSection.jsx:55-58 | the named field gets the new value and every other field keeps its value |
| Contact.FailureText | src/components/ContactSection.jsx:121 | server `error`, else server `message`, else "Failed to send message"; empty strings are skipped as falsy; the text is never empty |
| Contact.PayloadOf | src/components/ContactSection.jsx:108-114 | the JSON body holds the trimmed name, email and message, `_replyto` equal to the trimmed email, and the honeypot as typed |
| Contact.Validate | src/components/ContactSection.jsx:90-101 | dropped iff the honeypot is filled; the email error iff the honeypot is empty and the email is invalid; the message error iff the honeypot is empty, the email valid and the message short; sent, with the form's payload, iff all three checks pass |
| Contact.EmailCheckedBeforeMessage | src/components/ContactSection.jsx:92-101 | an invalid email is reported whatever the message is |
| Contact.SentPayloadIsClean | src/components/ContactSection.jsx:92-114 | a sent request carries the email as typed and as the reply-to address, a trimmed message of at least ten code units, and an empty honeypot |
| Contact.PackageMessage | src/components/ContactSection.jsx:279 | the pricing dialog's package text is `I'm interested in the "<title>" package. Please get in touch.` and always passes the length check |
| Contact.PaddedMessageLongEnough | src/components/ContactSection.jsx:51 | a text that begins and ends in non-whitespace, with at least ten characters at its ends (hence ten code units), passes the length check |
| Contact.SpaceEndedMessageLongEnough | src/components/ContactSection.jsx:51 | the same holds with one trailing space added |
| Contact.ConsultTemplateLongEnough | src/components/ContactSection.jsx:156 | the booking dialog's consult template passes the length check |
| Contact.ContactForm.constructor | src/components/ContactSection.jsx:39-45 | an empty form, not submitting, both dialogs closed |
| Contact.ContactForm.HandleChange | src/components/ContactSection.jsx:55-58 | the form is the old form with one field set |
| Contact.ContactForm.ResetForm | src/components/ContactSection.jsx:60 | the form is empty |
| Contact.ContactForm.BeginSubmit | src/components/ContactSection.jsx:86-103 | honeypot: nothing changes and nothing is shown; invalid email or short message: the matching error toast and nothing changes; otherwise the in-flight flag is raised and the payload is issued |
| Contact.ContactForm.Settle | src/components/ContactSection.jsx:117-133 | success shows the success toast and clears the form; a failed reply shows the server's text or the fallback; a rejected fetch shows its message or the default text; the flag is cleared in every case |
| Contact.ContactForm.HandleSubmit | src/components/ContactSection.jsx:86-134 | the whole handler: what is sent and the final state for each verdict; for a sent form, success clears it and shows the success toast, a failed reply keeps it and shows the server's `error`, else `message`, else the fallback, and a rejected fetch keeps it and shows the rejection's message or the default text; the flag is raised while the request is in flight and cleared after |
| Contact.ContactForm.CanSubmit | src/components/ContactSection.jsx:52-53 | `canSubmit`: not submitting, a non-blank name, a valid email, a long enough message and an empty honeypot; `EnabledButtonSends` ties it to the handler's checks |
| Contact.ContactForm.PressSubmit | src/components/ContactSection.jsx:52-53 | a disabled button does nothing; an enabled one sends the payload of the form, ends not submitting, and then clears the form with the success toast on an ok reply, or keeps the form with the exact error toast on a failed reply or a rejected fetch |
| Contact.ContactForm.RequestByEmail | src/components/ContactSection.jsx:152-157 | the booking dialog closes and the message becomes the consult template, other fields kept |
| Contact.ContactForm.SelectPackage | src/components/ContactSection.jsx:268-285 | the pricing dialog closes; for any package but "custom" the message becomes the package text |
| Contact.ContactForm.OpenBookingModal | src/components/ContactSection.jsx:325 | the booking dialog is open |
| Contact.ContactForm.OpenPricingModal | src/components/ContactSection.jsx:333 | the pricing dialog is open |
| Contact.ContactForm.CloseBookingModal | src/components/ContactSection.jsx:235 | the booking dialog is closed |
| Contact.ContactForm.ClosePricingModal | src/components/ContactSection.jsx:305 | the pricing dialog is closed |
| Contact.ContactForm.OnKey | src/components/ContactSection.jsx:167-173 | Escape closes both dialogs; any other key changes nothing |
| Contact.EnabledButtonSends | src/components/ContactSection.jsx:52-53 | when the button is enabled, the handler's own checks pass |
| Contact.HandlerDoesNotCheckName | src/components/ContactSection.jsx:86-101 | a form with an empty name still passes the handler's checks |
| Contact.SampleEmailValid | src/components/ContactSection.jsx:50 | "jane@example.com" is a valid email |
| Contact.SampleMessageLongEnough | src/components/ContactSection.jsx:51 | "Hello there!" passes the length check |
| Contact.NoDuplicateWhileInFlight | src/components/ContactSection.jsx:470 | while a request is in flight, pressing the button sends nothing, shows no toast, and leaves the form, the in-flight flag and both dialogs as they were |
| Projects.Normalize | src/components/ProjectsSection.jsx:61 | the query trimmed, then lower-cased; `NormalizeIgnoresCaseAndPadding` states what it forgets |
| Projects.Matches | src/components/ProjectsSection.jsx:61-67 | a blank query keeps every project; otherwise the normalised query must occur in the lower-cased title, description or space-joined tags; `SearchKeepsExactly` ties it to `Search` |
| Projects.Search | src/components/ProjectsSection.jsx:60-68 | the shown projects are no more than the list and are exactly those that match, each as many times as in the list |
| Projects.SearchKeepsExactly | src/components/ProjectsSection.jsx:60-68 | a project is shown iff the trimmed, lower-cased query occurs in its lower-cased title, description or space-joined tags |
| Projects.SearchKeepsOrder | src/components/ProjectsSection.jsx:60 | the shown projects keep the list's order |
| Projects.BlankQueryShowsAll | src/components/ProjectsSection.jsx:61-62 | an empty or whitespace-only query shows every project, in order |
| Projects.SameNormalFormSameResult | src/components/ProjectsSection.jsx:61 | queries with the same trimmed, lower-cased form show the same projects |
| Projects.NormalizeIgnoresCaseAndPadding | src/components/ProjectsSection.jsx:61 | the normalised query forgets letter case and surrounding whitespace |
| Projects.SearchIgnoresCaseAndPadding | src/components/ProjectsSection.jsx:60-68 | queries that differ only in case or surrounding whitespace show the same projects |
| Projects.LongerQueryNarrows | src/components/ProjectsSection.jsx:60-68 | when one normalised query contains another, its results are a subsequence of the other's |
| Projects.BuildChips | src/components/ProjectsSection.jsx:54-58 | the loop over projects and tags yields "All" followed by the distinct tags in first-occurrence order |
| Projects.TagInAllTags | src/components/ProjectsSection.jsx:56 | every tag of every project is added to the set |
| Projects.AllTagsFromProjects | src/components/ProjectsSection.jsx:56 | only project tags are added |
| Projects.Chips | src/components/ProjectsSection.jsx:54-58 | "All", then the distinct tags in first-occurrence order; `ChipsSpec` states its contents and `BuildChips` computes it |
| Projects.ChipsSpec | src/components/ProjectsSection.jsx:54-58 | the chip row starts with "All" and then holds every project tag, nothing else, each once, in first-occurrence order |
| Projects.EveryTagHasChip | src/components/ProjectsSection.jsx:54-58 | every tag of every listed project has a chip |
| Projects.AllCatalogTags | src/components/ProjectsSection.jsx:17-48 | the tags of the three featured projects, in order |
| Projects.CatalogTagsDistinct | src/components/ProjectsSection.jsx:24-44 | no tag repeats across the featured projects |
| Projects.CatalogChips | src/components/ProjectsSection.jsx:54-58 | the featured list's chip row is "All" followed by all twelve tags |
| Skills.SkillsWellFormed | src/components/SkillSection.jsx:10-37 | every level fits the progress bar's 0..100 range, and every category is one of the selectable chips other than "all" |
| Skills.NamesDistinct | src/components/SkillSection.jsx:102 | no two skills share the name used as their render key |
| Skills.Shown | src/components/SkillSection.jsx:66 | the shown skills are exactly those in the list that pass the category test, each as many times as in the list |
| Skills.ShownAll | src/components/SkillSection.jsx:65-66 | the "all" chip shows the list unchanged |
| Skills.ShownCategory | src/components/SkillSection.jsx:66 | any other chip shows exactly that category's skills, each as many times as in the list, in list order |
| Skills.ThreeWayPartition | src/components/SkillSection.jsx:66 | when every category is one of three distinct ones, the three filters share the list out exactly |
| Skills.CategoriesPartitionSkills | src/components/SkillSection.jsx:37-66 | the frontend, backend and tools chips split the skill list between them |
| Skills.CategoryLabel | src/components/SkillSection.jsx:93 | "All" for "all", else the category with its first letter upper-cased; `CategoryLabelShape` and `ChipLabels` state its shape and the four captions |
| Skills.CategoryLabelShape | src/components/SkillSection.jsx:93 | apart from "all", a caption is its category with only the first letter's case changed, and that letter is not small |
| Skills.ChipLabels | src/components/SkillSection.jsx:81-93 | the chip row reads All, Frontend, Backend, Tools |
| Skills.HeadingId | src/components/SkillSection.jsx:110 | "skill-" and the lower-cased name with each whitespace run replaced by one "-"; the lemmas below state its shape |
| Skills.HeadingIdShape | src/components/SkillSection.jsx:104-110 | a heading id starts with "skill-" and holds no whitespace |
| Skills.HeadingIdOfWord | src/components/SkillSection.jsx:110 | a name without whitespace only loses its capitals |
| Skills.HeadingIdOfWords | src/components/SkillSection.jsx:110 | two space-free words with any whitespace run between them give "skill-", the first word lower-cased, one "-" and the second lower-cased |
| Skills.TailwindHeadingId | src/components/SkillSection.jsx:17 | the skill "Tailwind CSS" gets the id "skill-tailwind-css" |
| Skills.TailwindDoubleSpaceHeadingId | src/components/SkillSection.jsx:110 | "Tailwind  CSS", with two spaces, gets the same id |
| Skills.SkillBadge | src/components/SkillSection.jsx:40-61 | the first keyword group found in the lower-cased name decides the badge; `SkillBadgePriority` states the choice |
| Skills.SkillBadgePriority | src/components/SkillSection.jsx:40-61 | each badge is chosen exactly when one of its keywords occurs in the lower-cased name and no keyword of an earlier group does |
| Skills.SkillBadgeIgnoresCase | src/components/SkillSection.jsx:41 | names that differ only in case get the same badge |
| Navbar.NavTargets | src/components/Navbar.jsx:5-11 | five links, to the five sections, each once, in order |
| Navbar.ScrollStep | src/components/Navbar.jsx:20-29 | backdrop iff past 10 pixels; hidden iff past 80 and further down than last time; the offset is remembered |
| Navbar.ShownNearTopOrScrollingUp | src/components/Navbar.jsx:23-27 | never hidden within 80 pixels of the top, or after a scroll that did not go down |
| Navbar.HiddenScrollingDown | src/components/Navbar.jsx:23-24 | scrolling down past 80 pixels hides the bar |
| Navbar.ScrollAllLastTwo | src/components/Navbar.jsx:20-33 | after any run of scroll events the state depends only on the last two offsets |
| Navbar.MenuStep | src/components/Navbar.jsx:69-91 | the menu button flips the menu and a link click closes it; `PressTwiceRestores`, `MenuParity` and `LinkClickCloses` state the consequences |
| Navbar.PressTwiceRestores | src/components/Navbar.jsx:69 | two presses of the menu button restore the menu |
| Navbar.MenuParity | src/components/Navbar.jsx:69 | with only button presses, the menu's state follows the parity of the presses |
| Navbar.LinkClickCloses | src/components/Navbar.jsx:69-91 | after a link click the menu is closed, so it is open iff an odd number of presses followed |
| Navbar.NavbarState.constructor | src/components/Navbar.jsx:14-17 | no backdrop, not hidden, menu closed, last offset 0 |
| Navbar.NavbarState.HandleScroll | src/components/Navbar.jsx:20-29 | the new state is one scroll step from the old one |
| Navbar.NavbarState.ToggleMenu | src/components/Navbar.jsx:69 | the menu flips |
| Navbar.NavbarState.CloseMenu | src/components/Navbar.jsx:91 | the menu is closed |
| Theme.GetInitialDark | src/components/ThemeToggle.jsx:5-16 | `getInitialDark`; the three lemmas below state how storage and the system preference decide |
| Theme.StoredChoiceDecides | src/components/ThemeToggle.jsx:7-8 | a non-empty stored value decides on its own: dark iff it is "dark", whatever the system says |
| Theme.NoChoiceFollowsSystem | src/components/ThemeToggle.jsx:8-15 | with nothing, or "", stored, dark iff the system prefers dark |
| Theme.FailedStorageIsLight | src/components/ThemeToggle.jsx:12-15 | storage that throws means light, whatever the system says |
| Theme.InitialDark | src/components/ThemeToggle.jsx:19-25 | a `dark` class on the page forces dark; otherwise the stored or system choice decides |
| Theme.WriteTheme | src/components/ThemeToggle.jsx:32-35 | `localStorage.setItem("theme", …)` stores "dark" or "light"; a storage that throws is left as it is; `WrittenThemeIsRead` and `LastWriteWins` state its effect |
| Theme.WrittenThemeIsRead | src/components/ThemeToggle.jsx:28-40 | a written theme is read back at the next start-up, whatever the system preference |
| Theme.LastWriteWins | src/components/ThemeToggle.jsx:32-35 | the last write wins, and writing the same theme twice changes nothing |
| Theme.ThemeToggle.constructor | src/components/ThemeToggle.jsx:19-40 | mounting resolves the initial theme, then syncs the page class and storage with it |
| Theme.ThemeToggle.Sync | src/components/ThemeToggle.jsx:28-40 | the page class follows the state, storage holds the theme unless it throws, and the two agree afterwards |
| Theme.ThemeToggle.Toggle | src/components/ThemeToggle.jsx:42 | the theme flips |
| Theme.ThemeToggle.Click | src/components/ThemeToggle.jsx:42-46 | the theme flips, and the page and storage follow it |
| Theme.ClickTwiceRestores | src/components/ThemeToggle.jsx:42-46 | two clicks restore the theme, the page class and storage |
| About.TakeTwo | src/components/AboutSection.jsx:187 | `slice(0, 2)` is the prefix of length two, or the whole array when it is shorter |
| About.Initials | src/components/AboutSection.jsx:183-190 | `initials(name)`; the lemmas below state which characters it keeps |
| About.InitialsOfPieces | src/components/AboutSection.jsx:183-190 | the initials are the upper-cased first characters of the first one or two pieces; an empty piece contributes nothing |
| About.InitialsAtMostTwo | src/components/AboutSection.jsx:183-190 | never more than two initials |
| About.InitialsOfEmpty | src/components/AboutSection.jsx:183 | the empty name has no initials |
| About.InitialsOfWord | src/components/AboutSection.jsx:183-190 | a single word gives its first letter, upper-cased |
| About.InitialsOfTwoWords | src/components/AboutSection.jsx:183-190 | two or more words give the first letters of the first two, upper-cased |
| About.DefaultInitials | src/components/AboutSection.jsx:14 | the default name gives "KM" |
| About.InitialsDoubleSpace | src/components/AboutSection.jsx:185-186 | a double space makes an empty second piece, so only the first initial appears |
| About.LogoFor | src/components/AboutSection.jsx:195-254 | the `switch` on the lower-cased stack name; the lemmas below state its cases |
| About.LogoIgnoresCase | src/components/AboutSection.jsx:196 | names that differ only in case get the same logo |
| About.LogoDefaultIff | src/components/AboutSection.jsx:198-254 | the default dot appears exactly when the lower-cased name is not one of the ten known keys |
| About.LogoAliases | src/components/AboutSection.jsx:209-246 | "node"/"node.js", "mongo"/"mongodb" and "ts"/"typescript" share a logo |
| About.DefaultStackLogos | src/components/AboutSection.jsx:19 | the logo of each default stack entry |
| About.DefaultStacksHaveLogos | src/components/AboutSection.jsx:87-94 | no default stack entry falls back to the dot |
| About.IconFor | src/components/AboutSection.jsx:259-280 | the `switch` on the lower-cased name; `IconLookup` states its cases |
| About.IconLookup | src/components/AboutSection.jsx:259-280 | the icon lookup ignores case, and the card's three bullets get the frontend icon, the backend icon and the circle |
| Hero.StacksLine | src/components/HeroSection.jsx:30 | `stacks.join(" • ")`; `StacksLineShape` states its shape |
| Hero.StacksLineShape | src/components/HeroSection.jsx:30 | no stacks give "", one gives its name, each further one adds a bullet and its name; the length is the names' lengths plus three per bullet |
| Hero.DefaultStacksLine | src/components/HeroSection.jsx:24-30 | the default line reads "React • TypeScript • Django • Node.js" |
| Hero.Initials | src/components/HeroSection.jsx:31-36 | the hero's own initials computation; `InitialsAgree` equates it with the about section's |
| Hero.InitialsAgree | src/components/HeroSection.jsx:31-36 | the hero and the about section compute the same initials for every name |
| Hero.InitialsAtMostTwo | src/components/HeroSection.jsx:31-36 | never more than two initials |
| Hero.DefaultInitials | src/components/HeroSection.jsx:22 | the default name gives "KM" |
| Hero.AvatarUrlOf | src/components/HeroSection.jsx:27 | the URL the component sees: the default picture for an omitted prop, none for `null`, the string otherwise |
| Hero.RenderAvatar | src/components/HeroSection.jsx:118-140 | the first render of the avatar slot; `AvatarOrInitials` states what is visible |
| Hero.OnImageError | src/components/HeroSection.jsx:124-132 | the picture's error handler; `BrokenImageShowsInitials` states its effect |
| Hero.AvatarOrInitials | src/components/HeroSection.jsx:118-140 | exactly one of picture and initials is visible at first: the initials iff the URL the component sees is absent (`null`) or empty, and they are hidden from assistive technology iff it is not |
| Hero.DefaultAvatarShowsPicture | src/components/HeroSection.jsx:27 | an omitted `avatarUrl` shows the default picture and hides the initials; the initials show at first only for `null` or "" |
| Hero.BrokenImageShowsInitials | src/components/HeroSection.jsx:124-132 | after a load failure the initials show instead of the picture, with the first render's `aria-hidden` |
| Hero.SectionSizing | src/components/HeroSection.jsx:42 | the section's padding and height classes; `CompactSizing` states the difference |
| Hero.CompactSizing | src/components/HeroSection.jsx:42 | only the non-compact layout takes the full screen height |

## Left out

- The network call at src/components/ContactSection.jsx:105-115 is not performed. Its outcome is a `Response` parameter of `Settle`, `HandleSubmit` and `PressSubmit`.
- The endpoint URL and its environment lookup are not modelled. The request body is modelled as a record, not as JSON text.
- Timers and focus are left out because they only affect presentation: `setTimeout`, `focus`, `scrollIntoView`, and toast positions and durations.
- Logging and `encodeURIComponent` are left out for the same reason.
- The Calendly popup (`openCalendlyPopup`) is left out. It only opens browser windows.
- Contact.ContactForm.HandleSubmit: the two halves run back to back. React state updates between `await`s and a second submit interleaving with an in-flight one are not modelled. The source's handler itself does not check `isSubmitting`; only the disabled button does, as `PressSubmit` and `NoDuplicateWhileInFlight` state.
- Contact.ContactForm.Settle: a rejection whose `message` is present but empty shows the empty text, as in the source.
- A thrown value that is a string, as against an `Error`, is folded into `NetworkFailure(Some(text))`.
- Contact.ContactForm.Settle: a reply body that parses to JSON `null` is not modelled. In the source, reading `body.error` then throws a `TypeError`, and the toast shows that error's message (src/components/ContactSection.jsx:116-121). The model treats the body as a record whose `error` and `message` are strings or absent. A truthy `error` or `message` that is not a string, such as an object that `new Error` turns into "[object Object]" (src/components/ContactSection.jsx:121), cannot be represented.
- Contact.ContactForm.SelectPackage: for the "custom" package the link's default action is not prevented, so the browser follows `href={pricing}` (src/components/ContactSection.jsx:268-272). The model only closes the dialog; the navigation is left out.
- React effect scheduling is left out, and so is the re-subscription of the scroll listener whenever `lastScrollY` changes (src/components/Navbar.jsx:33). Each scroll event is one `HandleScroll` call that sees the latest state.
- Navbar.ScrollStep: the offset is an `int`. Fractional `scrollY` values are not modelled.
- Browser storage, `matchMedia`, `document` and the root class list are not modelled as browser objects. They are parameters and fields.
- Theme.ThemeToggle.Sync: a failing `setItem` is modelled by leaving `Unavailable` storage as it is. A storage whose reads work but whose writes throw is not modelled.
- Text.Lower and Text.Upper map only the ASCII letters. Unicode case mapping is not modelled, including characters whose case mapping changes the string's length.
- Strings are sequences of characters. `n[0]` and `charAt(0)` act on UTF-16 code units in the source, so a leading character outside the Basic Multilingual Plane is not split here.
- `undefined` or `null` props are not modelled, except for the hero's `avatarUrl` (`Hero.AvatarProp`): names and stack entries are always strings. The `|| ""` and `String(s || "")` fallbacks therefore do not arise.
- Markup, classes other than the hero's sizing, icons and SVG, is not modelled. Neither are the statistics cards, the social links, the pricing data or the project cards' links.
- Hero.OnImageError: the parent element and the fallback element are taken to exist, as they do in the rendered markup.
- src/pages/Home.jsx and src/components/Footer.jsx are not part of this model. They lay out the sections and hold no logic.
