# Portfolio site core, modelled in Dafny

This project models the logic of a personal portfolio web site, a React
single-page application with one serverless function behind it. It covers:

- **Contact form** (`ContactForm`, `contact.dfy`):
  - the four per-field rules, applied to the trimmed values: the name, email, subject and message regular expressions;
  - the validator, which builds an error record and a verdict;
  - the form component's state changes when the user types and when the form is submitted.
- **Contact handler** (`SendEmail`, `sendemail.dfy`):
  - the serverless function's decision flow: the method check, the body check, the JSON parse, the OAuth2 token exchange and the mail send;
  - the mail it builds and the four fixed responses.
  - The parser, the token exchange and the mail transport are external. They are given as a `Services` value, and the handler returns the list of external calls it made.
- **Roadmap** (`Roadmap`, `roadmap.dfy`): the four learning phases, the toggle of the set of expanded phases, and the status-icon and card-style selectors.
- **Portfolio grid** (`ProjectSection`, `projects.dfy`): the five shipped projects, the category filter and its buttons, and the details-link format.
- **Project details page** (`ProjectDetails`, `projectdetails.dfy`):
  - `parseInt` of the route parameter, then the lookup of the first project with that id;
  - the conditional parts of the details view.
- **Header** (`Header`, `header.dfy`):
  - the nav items and the `#` stripping;
  - the scroll handler's loop that picks the active section, and the highlighted button;
  - the nav-click behaviour on the home page and on other pages, and the mobile menu flag.
- **Fortune cookie** (`FortuneCookie`, `fortunecookie.dfy`): the three-field state machine (`visible`, `broken`, `fortune`) and the random choice of a fortune.
- **JavaScript string built-ins** (`JsText`, `jstext.dfy`) that these rely on:
  - the whitespace set shared by `trim` and `\s`, and `String.prototype.trim`;
  - `replace` with a one-character pattern, and the truthiness test of an optional string;
  - as helpers of the email matcher, the first and last position of a character;
  - `parseInt(s, 10)` and the decimal text of an integer.
- `Wrappers` (`wrappers.dfy`) holds the `Option` type, used for optional fields and `undefined`.

The source files are modelled as follows:

- **Pure code** becomes functions with contracts. This covers:
  - the validator;
  - the filter;
  - the lookup;
  - the style selectors;
  - the mail construction.
- **Stateful components** become classes whose methods state the whole new state. These are:
  - `ContactSection`;
  - `RoadmapSection`;
  - `HeaderState`;
  - `FortuneCookie`.
- **Invariants** are ghost `Valid()` predicates:
  - `ContactSection`: every displayed error is the validator's current verdict for that field.
  - `FortuneCookie`: a broken cookie shows one of the six fortunes, and a whole cookie shows none.
- **The scroll handler's loop** becomes the method `Header.ScanSections`. It is proved against the recursive specification `Header.ActiveSection`.

Some behaviour of the code is easy to misread; the model follows the code:

- **Missing body**: the handler answers 400 to an absent or empty body. That check sits inside the `try` block but returns before anything is parsed.
- **Caught failures**: every failure inside the `try` block, whichever step throws, answers the same 500.
- **Response headers**: the JSON responses carry only the two CORS headers. There is no `Content-Type` header.
- **Subject and message**: the error messages ("Subject must be 3-100 characters long", "Message must be 10-500 characters long", ContactSection.tsx:79 and 86) mention only lengths. The patterns use `.`, however, so the trimmed value may not contain a line terminator (LF, CR, U+2028, U+2029) either; a terminator at either end is trimmed away first.
- **Name**: the error message ("… contain only letters and spaces", ContactSection.tsx:65) mentions spaces, but the pattern uses `\s`, so a name may contain any JavaScript whitespace character.
- **Detail links**: the details view gates "Visit Site" and "Live Demo" on the link being truthy, so an empty link renders nothing.

## Model

| member | source | states |
|---|---|---|
| JsText.Trim | frontend/src/components/ContactSection.tsx:61-63 | the trimmed text has no whitespace or line terminator at either end, and it is empty exactly when the input consists only of those characters |
| JsText.TrimSplit | frontend/src/components/ContactSection.tsx:61-63 | trim removes exactly the space run at each end: a space prefix, a middle with space-free ends and a space suffix trim to the middle |
| JsText.TrimIsStartThenEnd | frontend/src/components/ContactSection.tsx:61-63 | trim equals stripping the leading spaces and then the trailing ones |
| JsText.TrimIdempotent | frontend/src/components/ContactSection.tsx:61-63 | trimming twice is trimming once, for every text: a trimmed value has nothing left to trim |
| JsText.RemoveFirstLength | frontend/src/components/Header.tsx:23 | `replace("#", "")` leaves text without `#` unchanged and otherwise removes exactly one character |
| JsText.RemoveFirstSplit | frontend/src/components/Header.tsx:47 | the removed `#` is the first one: the text before it is kept, the `#` goes, and everything after it is kept, including later `#`s |
| JsText.NatToDecimal | frontend/src/components/ProjectSection.tsx:100 | the decimal text of a natural number is non-empty, all digits, has no leading zero and denotes the number |
| JsText.IntToString | frontend/src/components/ProjectSection.tsx:100 | the text of `${id}` is non-empty and starts with `-` exactly when the number is negative |
| JsText.ParseIntOfIntToString | frontend/src/pages/ProjectDetails.tsx:11 | `parseInt(…, 10)` reads back the decimal text of any integer, even when non-digit text follows it |
| JsText.ParseIntNaN | frontend/src/pages/ProjectDetails.tsx:11 | text without any digit parses to NaN |
| ContactForm.FormData.With | frontend/src/components/ContactSection.tsx:41-44 | the spread update sets the named field and keeps the other three |
| ContactForm.ValidationErrors.With | frontend/src/components/ContactSection.tsx:48-51 | the spread update sets the named error and keeps the other three |
| ContactForm.ValidationErrors.KeyCount | frontend/src/components/ContactSection.tsx:89 | the key count of the error record is zero exactly when no field has an error |
| ContactForm.ValidateFormData | frontend/src/components/ContactSection.tsx:55-90 | each field's error is its own block's verdict on its value, and the form is valid exactly when the error record is empty |
| ContactForm.MatchesEmailIff | frontend/src/components/ContactSection.tsx:20 | the split-based matcher accepts exactly the language of the email regex: a local part of `[A-Za-z0-9._%+-]`, an `@`, a domain of `[A-Za-z0-9.-]` with a non-empty run before a `.`, then at least two ASCII letters up to the end |
| ContactForm.MatchesEmailSound | frontend/src/components/ContactSection.tsx:20 | every text the matcher accepts has the regex's local@domain.tld shape |
| ContactForm.MatchesEmailComplete | frontend/src/components/ContactSection.tsx:20 | every text with the regex's shape, at any `@` and `.` positions, is accepted by the matcher |
| ContactForm.EmailSingleAt | frontend/src/components/ContactSection.tsx:20 | an accepted email has exactly one `@` |
| ContactForm.BlankIsRequired | frontend/src/components/ContactSection.tsx:58-87 | a field that is empty after trimming gets exactly its "… is required" message, whatever its pattern |
| ContactForm.AcceptedIff | frontend/src/components/ContactSection.tsx:58-87 | a field has no error exactly when its trimmed value matches its pattern |
| ContactForm.NameAcceptedIff | frontend/src/components/ContactSection.tsx:21 | the name passes exactly when its trimmed value has 2 to 50 characters, each an ASCII letter or whitespace |
| ContactForm.EmailAcceptedIff | frontend/src/components/ContactSection.tsx:69-73 | the email passes exactly when its trimmed value is in the regex's language |
| ContactForm.SubjectMessageAcceptedIff | frontend/src/components/ContactSection.tsx:22-23 | the subject passes exactly when its trimmed value has 3 to 100 characters and no line terminator; the message likewise with 10 to 500 |
| ContactForm.ValidIffAllAccepted | frontend/src/components/ContactSection.tsx:89 | `isValid` holds exactly when all four trimmed values match their patterns |
| ContactForm.ErrorIsLocal | frontend/src/components/ContactSection.tsx:58-87 | a field's error depends only on that field's value |
| ContactForm.NameExamples | frontend/src/components/ContactSection.tsx:21 | "Jane2" is rejected as a name and "Jane Doe" is accepted |
| ContactForm.EmailExampleRejected | frontend/src/components/ContactSection.tsx:20 | "foo@bar" is rejected, because there is no dot after the `@` |
| ContactForm.EmailExampleAccepted | frontend/src/components/ContactSection.tsx:20 | "foo@bar.com" is accepted |
| ContactForm.MessageBoundary | frontend/src/components/ContactSection.tsx:23 | the message bound is inclusive: 10 characters pass and 9 fail |
| ContactForm.ContactSection.constructor | frontend/src/components/ContactSection.tsx:27-35 | the form starts with four empty fields, no errors and not submitting, which satisfies the invariant |
| ContactForm.ContactSection.HandleChange | frontend/src/components/ContactSection.tsx:37-53 | typing stores the value in its field and clears that field's error if one is shown; the rest of the state is kept and the invariant is preserved |
| ContactForm.ContactSection.HandleSubmit | frontend/src/components/ContactSection.tsx:92-112 | valid data resets the fields and leaves the errors, which are then empty; invalid data replaces the errors with the validator's and keeps the data; submitting ends false |
| SendEmail.MailAddressing | frontend/netlify/functions/sendEmail.ts:47-51 | the mail goes from and to the owner's mailbox, replies go to the submitted address, and the subject is the fixed label followed by the submitted subject |
| SendEmail.HtmlCarriesFieldsVerbatim | frontend/netlify/functions/sendEmail.ts:52-59 | all four submitted fields occur verbatim in the HTML body |
| SendEmail.HtmlAmbiguousWithoutEscaping | frontend/netlify/functions/sendEmail.ts:52-59 | because nothing is escaped, two different submissions can produce the same HTML body |
| SendEmail.ContactHandler | frontend/netlify/functions/sendEmail.ts:6-90 | see the ContactHandler note below the table |
| Roadmap.RoadmapData | frontend/src/components/RoadmapSection.tsx:24-87 | the roadmap has four phases with ids 1 to 4, which are distinct, and only phase 1 is completed |
| Roadmap.Toggled | frontend/src/components/RoadmapSection.tsx:94-101 | the toggle flips the membership of the given id and keeps every other id's membership |
| Roadmap.ToggleTwice | frontend/src/components/RoadmapSection.tsx:94-101 | toggling the same id twice restores the set |
| Roadmap.TogglesCommute | frontend/src/components/RoadmapSection.tsx:94-101 | toggles of two ids can be done in either order |
| Roadmap.GetStatusIcon | frontend/src/components/RoadmapSection.tsx:104-110 | the icon is CheckCircle exactly when the phase is completed |
| Roadmap.PhaseStylesByExpansion | frontend/src/components/RoadmapSection.tsx:112-130 | an incomplete phase's styles ignore expansion; a completed phase's background is the green highlight exactly when it is expanded, and "bg-gray-900" otherwise; border, hover and dot ignore expansion |
| Roadmap.RoadmapSection.constructor | frontend/src/components/RoadmapSection.tsx:90-92 | the initial expanded set is {1} |
| Roadmap.RoadmapSection.TogglePhase | frontend/src/components/RoadmapSection.tsx:94-101 | the new expanded set is the old one toggled at the given id |
| ProjectSection.CategoryName | frontend/src/components/ProjectSection.tsx:10 | a category's name is one of the four spellings "App", "Product", "API", "Art" |
| ProjectSection.FilterLabelInjective | frontend/src/components/ProjectSection.tsx:76-82 | different filter buttons have different captions, so the caption passed to `setFilter` identifies the button |
| ProjectSection.ExactlyOneActiveButton | frontend/src/components/ProjectSection.tsx:76-81 | whatever the filter, exactly one of the five buttons is highlighted |
| ProjectSection.FilterByCategory | frontend/src/components/ProjectSection.tsx:67 | a project is in the filtered list exactly when it is in the input and has the category; the result is no longer than the input |
| ProjectSection.FilterIsOrderedSelection | frontend/src/components/ProjectSection.tsx:67 | the filtered list keeps the input's order and every matching project as many times as it occurs, and nothing else |
| ProjectSection.FilteredProjects | frontend/src/components/ProjectSection.tsx:65-67 | "All" shows the whole list; a category shows exactly that category's projects |
| ProjectSection.FilteredIsSubsequence | frontend/src/components/ProjectSection.tsx:65-67 | every filter shows a subsequence of the list, in the list's order |
| ProjectSection.FilterAppend | frontend/src/components/ProjectSection.tsx:67 | filtering distributes over concatenation |
| ProjectSection.ProjectData | frontend/src/components/ProjectSection.tsx:15-59 | the five shipped projects have ids 1 to 5, which are distinct, and each has at least one image, so `image[0]` exists |
| ProjectSection.ShippedCategories | frontend/src/components/ProjectSection.tsx:15-59 | the shipped projects are three apps followed by two artworks |
| ProjectSection.ShippedEmptyFilters | frontend/src/components/ProjectSection.tsx:65-67 | with the shipped data, "Product" and "API" show nothing |
| ProjectSection.ShippedFilters | frontend/src/components/ProjectSection.tsx:65-67 | with the shipped data, "App" shows the first three projects and "Art" the last two |
| ProjectSection.DetailsLinkCarriesId | frontend/src/components/ProjectSection.tsx:100 | a details link is "/portfolio-details/" followed by text that `parseInt` reads back as the project's id |
| ProjectDetails.FindById | frontend/src/pages/ProjectDetails.tsx:12 | `find` returns nothing exactly when no project's id equals the parsed id (NaN equals none); otherwise it returns the first project that matches |
| ProjectDetails.ProjectPage | frontend/src/pages/ProjectDetails.tsx:9-17 | the page is "not found" exactly when no project matches the parsed route id; otherwise it shows a listed project with that id |
| ProjectDetails.NonNumericNotFound | frontend/src/pages/ProjectDetails.tsx:11-14 | a missing parameter, or one with no digits, always gives "not found" |
| ProjectDetails.DetailsLinkRoundTrip | frontend/src/pages/ProjectDetails.tsx:11-16 | when ids are distinct, the page reached by a project's details link shows that project |
| ProjectDetails.ShippedDetailsLinks | frontend/src/pages/ProjectDetails.tsx:11-16 | every shipped card's link opens its own project |
| ProjectDetails.SpacedRouteId | frontend/src/pages/ProjectDetails.tsx:11 | `parseInt` skips leading spaces and ignores trailing text: " 3abc" reads as 3 |
| ProjectDetails.LetterRouteId | frontend/src/pages/ProjectDetails.tsx:11 | a leading letter gives NaN: "x3" |
| ProjectDetails.LenientRouteExamples | frontend/src/pages/ProjectDetails.tsx:11-14 | " 3abc" opens project 3 and "x3" gives "not found" |
| JsText.Truthy | frontend/src/pages/ProjectDetails.tsx:37 | a link renders exactly when it is present and non-empty, and then unchanged; the header's mount effect applies the same test to the stored scroll target (Header.tsx:30-38) |
| ProjectDetails.GalleryRule | frontend/src/pages/ProjectDetails.tsx:60-68 | the gallery appears exactly when there are at least two images; it shows them all, in order, and its first image is the hero image |
| ProjectDetails.ShippedDetailsViews | frontend/src/pages/ProjectDetails.tsx:31-76 | every shipped project shows "Visit Site" and a hero image; only the three apps show "Live Demo"; only the first project has a gallery |
| Header.SectionIdOfHashPath | frontend/src/components/Header.tsx:47 | a path that starts with `#` maps to the rest of the path |
| Header.SectionIdFirstHashOnly | frontend/src/components/Header.tsx:23 | only the first `#` is removed: "##top" gives "#top" and "a#b#c" gives "ab#c" |
| Header.PathIds | frontend/src/components/Header.tsx:46-47 | the section ids of the items are one per item, in order |
| Header.NavSectionIds | frontend/src/components/Header.tsx:9-15 | the five nav paths map to "hero", "about", "portfolio", "roadmap" and "contact", which are distinct |
| Header.ActiveSection | frontend/src/components/Header.tsx:44-57 | the active section is "hero" or one of the given sections that is present and whose top the scroll position has reached |
| Header.ActiveSectionIsLastReached | frontend/src/components/Header.tsx:44-55 | with no section reached, the result is "hero"; otherwise it is a reached section after which no later section in nav order is reached |
| Header.ScanSections | frontend/src/components/Header.tsx:41-58 | the forward loop that overwrites `currentSection` computes the active section |
| Header.ActiveIsNavSection | frontend/src/components/Header.tsx:44-55 | after a scroll, the active section is always one of the five nav ids |
| Header.NavOrderNotLargestOffset | frontend/src/components/Header.tsx:46-55 | the choice follows nav order, not offsets; see the NavOrderNotLargestOffset note below the table |
| Header.ExactlyOneHighlighted | frontend/src/components/Header.tsx:111-114 | when the active section is a nav id, exactly one nav button is highlighted |
| Header.HandleClick | frontend/src/components/Header.tsx:21-28 | on the home page a click scrolls to the section; elsewhere it stores the section under "scrollTarget" and goes to "/"; both routes target the path with its `#` removed |
| Header.ClickFromOtherPage | frontend/src/components/Header.tsx:21-38 | a nav click on another page ends, once the home page mounts, in the same scroll as a click on the home page |
| Header.HeaderState.constructor | frontend/src/components/Header.tsx:17-18 | the header starts on "hero" with the menu closed |
| Header.HeaderState.HandleScroll | frontend/src/components/Header.tsx:40-58 | a scroll sets the active section to the specified one, which is a nav id, and leaves the menu as it was |
| Header.HeaderState.ClickNav | frontend/src/components/Header.tsx:109 | a nav-button click closes the menu, keeps the active section and has the click's effect |
| Header.HeaderState.ToggleMenu | frontend/src/components/Header.tsx:127 | the hamburger button negates the menu flag |
| FortuneCookie.FortuneIndex | frontend/src/services/FortuneCookie.tsx:22 | for a random number in [0, 1), `Math.floor(random * 6)` is a valid index into the six fortunes |
| FortuneCookie.EveryFortuneReachable | frontend/src/services/FortuneCookie.tsx:22 | every fortune is drawn for some random number |
| FortuneCookie.FortuneCookie.constructor | frontend/src/services/FortuneCookie.tsx:15-17 | the widget starts hidden and whole, with no fortune |
| FortuneCookie.FortuneCookie.Open | frontend/src/services/FortuneCookie.tsx:37 | opening shows the modal and leaves the cookie and fortune unchanged |
| FortuneCookie.FortuneCookie.HandleClick | frontend/src/services/FortuneCookie.tsx:19-25 | the first click breaks the cookie and sets the fortune drawn by the index rule; later clicks change nothing; the invariant is kept |
| FortuneCookie.FortuneCookie.Reset | frontend/src/services/FortuneCookie.tsx:27-31 | all three fields return to their initial values |

**ContactHandler**. The contract of `SendEmail.ContactHandler` states:

- **Wrong method**: a method other than POST gives 405 with no headers, and nothing external is called.
- **Missing body**: an absent or empty body gives 400 with no headers, and nothing external is called.
- **Parse once, first**: otherwise the body is parsed once, as the first call, and never again.
- **Short circuit**: a failed step is the last call. After a failed parse the calls are the parse alone; after a failed token step they are the parse and the token step.
- **Success**: the handler answers 200 exactly when the parse, the token step and the send all succeed. Every other case gives 500.
- **CORS headers**: they go on the 200 and 500 responses and on no others.
- **Token step**: the token is asked for exactly when the parse succeeded, once, as the second call. No call is made twice, so there are at most three.
- **One send, last**: the send is the last call and happens at most once. It comes right after a successful token step, and it happens exactly when the parse and the token step succeed.
- **What is sent**: the send carries the message built from the parsed submission.

**NavOrderNotLargestOffset**. `Header.NavOrderNotLargestOffset` states two concrete cases:

- "about" lies below "portfolio" and both are reached. Yet "portfolio" wins, because it comes later in nav order.
- A section missing from the page is skipped.

## Left out

- **Rendering**: JSX markup, CSS class strings beyond the roadmap's style selector, icons, and the never-taken "Dropdown" branch of the nav rendering. These are presentation.
- **External services**:
  - `nodemailer`, the `googleapis` OAuth2 client and the `process.env` reads are left out. The owner's mailbox is the `Config` input. The outcomes of the JSON parse, the token exchange and the send are the `Services` input.
  - The token's value is not modelled.
  - A failure of `createTransport` itself is not modelled separately. It would end in the same 500 response as a failed send.
- **Browser and router APIs**: `scrollIntoView`, `sessionStorage`, `navigate`, `useParams` and `setTimeout` are I/O.
  - `Header.HandleClick` returns the effect it requests, and the mount effect's target is `JsText.Truthy` of the stored value.
  - The route parameter is an input.
- **Scroll position**: the computation `window.scrollY + innerHeight / 3` uses floating point. The scroll position is a real-number input, and the section offsets are integer inputs.
- **Timing and logging**:
  - the one-second simulated delay and the `console.log` of `handleSubmit`;
  - the 100 ms delay before the pending scroll;
  - `console.error` in the handler.
- **ContactSection.HandleSubmit typing during the delay**: the model does not cover typing during the awaited delay. A keystroke in that window would be lost when the form resets, and the model treats the submit as one atomic step. `isSubmitting` is true only during that step, so its final value is stated.
- **FortuneCookie.FortuneIndex**: the distribution of `Math.random` is left out. Only the index rule over a number in [0, 1) is modelled.
- **Project list import**: the details page imports a `projectList` binding that the portfolio module does not export. The lookup takes the project list as a parameter, and the lemmas apply it to the shipped list.
- **UTF-16**: JavaScript lengths, `trim` and the regexes (no `u` flag) count UTF-16 code units. Strings here are sequences of characters, so a character outside the Basic Multilingual Plane counts once here and twice in the browser. Surrogate pairs are not modelled. The whitespace set of `trim` and `\s` is the same set in both.
- **JsText.ParseInt10**: it returns exact integers. The precision loss of JavaScript numbers above 2^53 is not modelled.
- **JsText.IntToString**: it writes every integer in plain decimal. JavaScript writes numbers of magnitude 1e21 and above in exponent notation (`${1e21}` is "1e+21", which `parseInt` reads as 1), so `ProjectDetails.DetailsLinkRoundTrip` and `ProjectSection.DetailsLinkCarriesId` hold in JavaScript only for ids below that bound. All shipped ids are 1 to 5.
- **Ill-shaped JSON bodies**: a body that parses to an object with missing or non-string fields destructures to `undefined` or other values, and the handler still sends a mail with their string forms (such as "undefined") in it. `Services.parseJson` yields four strings or nothing, so the model does not express that case.
- **Static components**: the hero, the about section, the home page, the app shell and the layout have no logic.
