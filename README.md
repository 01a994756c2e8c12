# Hotel landing page: feature carousel and booking form

This project models the logic of the hotel landing page component
(`src/pages/Landing.tsx`) and proves properties of that model. The component is mostly layout;
its behaviour comes from two pieces of local state and the handlers that change them.

- **Feature carousel.** The page shows five feature highlights on sliding panels. The number of
  cards per slide is a step function of the viewport width: 4 from 1024 px, 2 from 768 px, 1 below
  that, and 4 when there is no `window`. The slide count is `ceil(features / cardsPerSlide)`. The
  arrows move the slide index with JavaScript's `%`, wrapping at both ends. The indicator dots jump
  straight to a slide. Each slide shows `features.slice(s * C, (s + 1) * C)`, and card `i` on slide
  `s` has key `s * C + i`.
- **Booking form.** A seven-field record that starts as check-in `''`, check-out `''`, 1 guest, room
  type `'standard'`, and empty name, e-mail and phone. Each input handler replaces one field with
  `{...prev, field: value}`. A room card's "Select Room" button writes
  `name.toLowerCase().replace(' ', '-')` into the room type. Once the browser's own checks pass
  (every field is `required`, and the e-mail input has type `email`), submitting logs the record
  and shows an acknowledgement. It does not change the form.

Modules:

- `Wrappers`: `Option`; `None` stands for "no `window`".
- `Content`: the static rooms, amenities and features, and the three registry-ID helpers.
- `Carousel`: the pure arithmetic. It covers cards per slide, page count, JavaScript's truncating
  remainder, next and previous, the slicing into panels, and what the arrows and dots show.
- `Booking`: the form record, field access, and the room-key normalisation (`ToLower`, then
  `ReplaceFirst`).
- `LandingPage`: the class `Landing`. Its fields are `currentSlide` and `form`, and it has a method
  for each handler. Its invariant is that the slide index is never negative and the guest count is
  one the guest select offers. The viewport width is a parameter of the carousel handlers.

Results worth knowing:

- The arrows always land in `[0, pageCount)`. This holds even from an index computed at another
  width, because the page never registers a resize listener, so the index can outlive the page
  count it was computed for.
- A stale index can highlight no dot at all (`Carousel.StaleIndexHighlightsNoDot`).
- The two arrows undo each other only for in-range indices, not for every integer.
- The last panel is shorter than `cardsPerSlide` whenever that does not divide the feature count.
- For three of the four rooms, the Select-Room key is not one of the room-type option values:
  `"standard-room"`, `"deluxe-room"` and `"family-room"` against `standard`, `deluxe` and `family`.
  Only `"executive-suite"` matches. The model keeps this behaviour as written
  (`Booking.OnlyExecutiveSuiteKeyIsAnOption`).

## Model

| member | source | states |
|---|---|---|
| Carousel.CardsPerSlide | src/pages/Landing.tsx:127-134 | 4 at width ≥ 1024, 2 on [768, 1024), 1 below 768, 4 without a window; always one of 1, 2, 4 |
| Carousel.PageCount | src/pages/Landing.tsx:120 | the ceiling of features / cards: the pages hold every feature, one page fewer would not, and there is at least one page when there is a feature |
| Carousel.Remainder | src/pages/Landing.tsx:120 | JavaScript `%` for a positive divisor: magnitude below the divisor, sign of the dividend, dividend minus result a multiple of the divisor, Euclidean remainder for a non-negative dividend |
| Carousel.Next | src/pages/Landing.tsx:119-121 | from any index ≥ 0 the result is `(i + 1) mod pageCount` and in range; an in-range index steps up by one, and the last page wraps to 0 |
| Carousel.Prev | src/pages/Landing.tsx:123-125 | from any index ≥ 0 the result is in range; an in-range index steps down by one, and page 0 wraps to pageCount - 1 |
| Carousel.NextPrevInverse | src/pages/Landing.tsx:119-125 | for in-range indices, prev(next(i)) == i and next(prev(i)) == i |
| Carousel.StaleIndexRecovers | src/pages/Landing.tsx:119-134 | any non-negative index, including one left over from another width and past the current page count, is taken into range by either arrow at any width |
| Carousel.NextTimesAdvances | src/pages/Landing.tsx:119-121 | n clicks on "next" from an in-range index give (i + n) mod pageCount |
| Carousel.NextTimesFullCycle | src/pages/Landing.tsx:119-121 | pageCount clicks on "next" return to the starting slide |
| Carousel.Slice | src/pages/Landing.tsx:364 | `slice(from, to)` with both bounds clamped to the length: its length and that element k is `s[from + k]` |
| Carousel.CardKey | src/pages/Landing.tsx:367-368 | the key and ID index of card `index` on slide `s`, `s * C + index`; `Carousel.CardKeysDistinct` and `Carousel.FeatureHasPanel` show it names each feature exactly once |
| Carousel.Panel | src/pages/Landing.tsx:363-364 | the cards of slide `s`, `Slice(features, s * C, (s + 1) * C)`; its contents are stated by `Carousel.PanelIsSubrange` and `Carousel.PanelCardIsFeatureAtKey` |
| Carousel.Panels | src/pages/Landing.tsx:360 | one panel per page: pageCount panels |
| Carousel.PanelCardIsFeatureAtKey | src/pages/Landing.tsx:363-368 | card `index` of slide `s` is the feature at position `s * C + index`, its key, and `index < C` |
| Carousel.PanelNonEmpty | src/pages/Landing.tsx:360-364 | every slide in `[0, pageCount)` shows at least one card |
| Carousel.CardKeysDistinct | src/pages/Landing.tsx:367 | different (slide, position) pairs get different keys, so the panels are disjoint |
| Carousel.FeatureHasPanel | src/pages/Landing.tsx:360-368 | every feature j appears on slide j / C at position j mod C, and that slide exists |
| Carousel.PanelIsSubrange | src/pages/Landing.tsx:364 | slide s shows `features[s*C .. min((s+1)*C, F))` |
| Carousel.ConcatPrefix | src/pages/Landing.tsx:360-364 | the first k panels laid end to end are the features before position k * C (or all of them) |
| Carousel.PanelsPartition | src/pages/Landing.tsx:360-368 | the panels laid end to end are exactly the feature list, and none is empty |
| Carousel.Render | src/pages/Landing.tsx:360-426 | arrows and dots appear iff pageCount > 1; then there is one dot per index in `[0, pageCount)`, and a dot is highlighted iff its index is the current slide |
| Carousel.JumpHighlightsOnlyTarget | src/pages/Landing.tsx:411-424 | after a jump to slide k the dot for k is highlighted and no other |
| Carousel.StaleIndexHighlightsNoDot | src/pages/Landing.tsx:413-422 | an index at or past pageCount highlights no dot |
| Content.LookupId | src/pages/Landing.tsx:13 | `ids[index] \|\| 'noID'`: the entry when the index hits a non-empty entry; `'noID'` when it hits an empty entry or falls outside the table |
| Content.RoomCardId | src/pages/Landing.tsx:11-14 | every index maps to `'noID'` |
| Content.AmenityId | src/pages/Landing.tsx:16-19 | every index maps to `'noID'` |
| Content.FeatureCardId | src/pages/Landing.tsx:21-24 | every index maps to `'noID'` |
| Content.IdTablesMatchContent | src/pages/Landing.tsx:11-24 | each ID table has one entry per room, amenity and feature (4, 6, 5) |
| LandingPage.FeaturePages | src/pages/Landing.tsx:91-134 | with the five features there are 2 pages without a window or at ≥ 1024 px, 3 on [768, 1024), 5 below 768 |
| LandingPage.FeatureCarousel | src/pages/Landing.tsx:360-426 | for the page's features at any width: the panels are exactly the features, and arrows and one dot per page are shown with only the current one highlighted |
| LandingPage.Landing.constructor | src/pages/Landing.tsx:28-37 | slide 0, and the form starts as `''`, `''`, 1, `'standard'`, `''`, `''`, `''` |
| LandingPage.Landing.NextFeatureSlide | src/pages/Landing.tsx:119-121 | the index becomes `Next(old index, pageCount at this width)`, is in range, and wraps from the last page to 0; the form is unchanged |
| LandingPage.Landing.PrevFeatureSlide | src/pages/Landing.tsx:123-125 | the index becomes `Prev(old index, pageCount at this width)`, is in range, and wraps from 0 to the last page; the form is unchanged |
| LandingPage.Landing.JumpTo | src/pages/Landing.tsx:417 | the index becomes exactly k; the form is unchanged |
| LandingPage.Landing.SetCheckIn | src/pages/Landing.tsx:547 | check-in holds the new value, the other six fields and the slide are unchanged |
| LandingPage.Landing.SetCheckOut | src/pages/Landing.tsx:560 | check-out holds the new value, the other six fields and the slide are unchanged |
| LandingPage.Landing.SetGuests | src/pages/Landing.tsx:572-578 | the guest count holds the chosen option (1..6), the other six fields and the slide are unchanged |
| LandingPage.Landing.SetRoomType | src/pages/Landing.tsx:585 | the room type holds the chosen value, the other six fields and the slide are unchanged |
| LandingPage.Landing.SetName | src/pages/Landing.tsx:605 | the name holds the new value, the other six fields and the slide are unchanged |
| LandingPage.Landing.SetEmail | src/pages/Landing.tsx:621 | the e-mail holds the new value, the other six fields and the slide are unchanged |
| LandingPage.Landing.SetPhone | src/pages/Landing.tsx:635 | the phone holds the new value, the other six fields and the slide are unchanged |
| LandingPage.Landing.SelectRoom | src/pages/Landing.tsx:477-480 | the room type becomes `RoomKey(name)`, and nothing else changes |
| LandingPage.Landing.Submit | src/pages/Landing.tsx:44-49 | returns the current form as the logged record and the acknowledgement text; the state is untouched (no `modifies`) |
| Booking.Read | src/pages/Landing.tsx:29-37 | the guest count reads as a number and the other six fields read as text |
| Booking.ReadExtensional | src/pages/Landing.tsx:29-37 | two forms that agree on all seven fields are equal |
| Booking.ReplacesOnlyDetermines | src/pages/Landing.tsx:547-635 | a `{...prev, field: value}` update is determined by the field and the value |
| Booking.ReplacesOnly | src/pages/Landing.tsx:547-635 | the relation `after == {...before, f: v}`: field `f` reads `v` and every other field reads as before |
| Booking.InitialForm | src/pages/Landing.tsx:29-37 | the form's starting record: `''`, `''`, 1, `'standard'`, `''`, `''`, `''` |
| Booking.GuestOptions | src/pages/Landing.tsx:576-578 | the guest counts the select offers, 1 to 6 |
| Booking.RoomOptions | src/pages/Landing.tsx:589-592 | the room-type options as (value, label) pairs, in order |
| Content.Rooms | src/pages/Landing.tsx:51-80 | the four rooms with their names, prices, images, features and descriptions |
| Content.Amenities | src/pages/Landing.tsx:82-89 | the six amenity names |
| Content.Features | src/pages/Landing.tsx:91-117 | the five feature highlights with their titles and descriptions |
| Booking.ReplacementsCommute | src/pages/Landing.tsx:547-635 | edits of two different fields give the same form in either order |
| Booking.OptionValues | src/pages/Landing.tsx:589-592 | the room-type option values are exactly standard, deluxe, executive-suite and family, in that order |
| Booking.LowerChar | src/pages/Landing.tsx:478 | an upper-case ASCII letter becomes the matching lower-case letter; any other character is kept |
| Booking.ToLower | src/pages/Landing.tsx:478 | same length, each character lower-cased in place, no upper-case letter left |
| Booking.ToLowerIdempotent | src/pages/Landing.tsx:478 | lower-casing twice equals lower-casing once |
| Booking.FirstIndexFrom | src/pages/Landing.tsx:478 | the first position at or after `from` holding the character, or the length if there is none |
| Booking.FirstIndex | src/pages/Landing.tsx:478 | below the length iff the character occurs; then it is the first occurrence |
| Booking.ReplaceFirst | src/pages/Landing.tsx:478 | `replace` with a one-character string pattern and a one-character replacement: only the first occurrence is replaced, the rest is kept, the input comes back unchanged when the pattern is absent |
| Booking.RoomKey | src/pages/Landing.tsx:478 | the key Select Room writes: `ReplaceFirst(ToLower(name), ' ', '-')`; what it looks like is stated by `Booking.RoomKeyShape` |
| Booking.RoomKeyShape | src/pages/Landing.tsx:478 | the key is as long as the name and has no upper-case letter; the first space becomes `-` and every other character is lower-cased |
| Booking.LowerKeepsFirstSpace | src/pages/Landing.tsx:478 | lower-casing keeps the position of the first space |
| Booking.StandardRoomKey | src/pages/Landing.tsx:53 | "Standard Room" gives "standard-room" |
| Booking.DeluxeRoomKey | src/pages/Landing.tsx:60 | "Deluxe Room" gives "deluxe-room" |
| Booking.ExecutiveSuiteKey | src/pages/Landing.tsx:67 | "Executive Suite" gives "executive-suite" |
| Booking.FamilyRoomKey | src/pages/Landing.tsx:74 | "Family Room" gives "family-room" |
| Booking.OnlyFirstSpaceReplaced | src/pages/Landing.tsx:478 | a name with two spaces keeps the second: "Deluxe City Room" gives "deluxe-city room" |
| Booking.RoomNamesListed | src/pages/Landing.tsx:51-80 | the four rooms in order: Standard Room, Deluxe Room, Executive Suite, Family Room |
| Booking.OptionLabelsAreRoomNames | src/pages/Landing.tsx:589-592 | option k is labelled with the name of room k |
| Booking.StandardRoomKeyIsNoOption | src/pages/Landing.tsx:478 | the Standard Room key matches no option value |
| Booking.DeluxeRoomKeyIsNoOption | src/pages/Landing.tsx:478 | the Deluxe Room key matches no option value |
| Booking.ExecutiveSuiteKeyIsAnOption | src/pages/Landing.tsx:478 | the Executive Suite key is an option value |
| Booking.FamilyRoomKeyIsNoOption | src/pages/Landing.tsx:478 | the Family Room key matches no option value |
| Booking.OnlyExecutiveSuiteKeyIsAnOption | src/pages/Landing.tsx:478 | of the four room keys, exactly the third (Executive Suite) is a room-type option value |

## Left out

- JSX layout, Tailwind classes, the `translateX(-N%)` offset string, images and icons: presentation only; the slide index they are computed from is modelled.
- `scrollIntoView`, `console.log`, `alert` and `preventDefault`: browser side effects. `Submit` returns the logged record and the acknowledgement text as outputs instead, and Select Room's scroll is dropped.
- LandingPage.Landing.Submit: models the submit handler only. The browser's constraint validation decides whether the handler runs at all: the `required` attribute on all seven inputs and selects, and the `type="email"` format check. That validation is not modelled, so the contract says nothing about a form the browser would refuse.
- The header's authentication branch and the first-name split: they read state owned by the authentication provider; this model does not include that provider.
- The `mounted` flag and its `useEffect`: a one-shot entrance animation driven by React's lifecycle.
- Live `window.innerWidth` reads and React re-render timing: the width is an explicit `Option<int>` parameter, and a width is assumed to be a whole number of pixels. An index that outlives a width change is covered by `Carousel.StaleIndexRecovers` and `Carousel.StaleIndexHighlightsNoDot`.
- `parseInt` of the guest select's value: `SetGuests` takes the count as an integer that must be one of the offered options 1..6.
- Router `Link` targets and the icon library: foreign code.
- Carousel.Next: requires pageCount ≥ 1. With an empty feature list JavaScript would compute `NaN` from `% 0`, but the page's feature list is a fixed five-element constant.
- Carousel.Prev: requires pageCount ≥ 1, for the same reason.
- Carousel.PageCount: uses integer ceiling division instead of floating-point `Math.ceil(F / C)`. The two agree for these magnitudes.
- Booking.ToLower: lower-cases ASCII letters only, whereas JavaScript's `toLowerCase` is full Unicode. All room names are ASCII.
- Booking.FirstIndex: returns the length when the character is absent, where JavaScript's `indexOf` returns -1. Only `ReplaceFirst` uses it, and it is not a modelled JavaScript call.
- LandingPage.Landing.JumpTo: takes a natural number, because the dots only offer indices in `[0, pageCount)` (`Carousel.Render`). Like the source, it does no upper-bound check.
