/**
 * The booking-request form: its seven-field record, the initial value, what
 * each input handler replaces, and the key that "Select Room" derives from a
 * room's name (`name.toLowerCase().replace(' ', '-')`).
 */
module Booking {
  import Content

  /** The form's state; every field is a string except the guest count. */
  datatype BookingForm = BookingForm(
    checkIn: string,
    checkOut: string,
    guests: int,
    roomType: string,
    name: string,
    email: string,
    phone: string)

  /** The form as the page first renders it. */
  const InitialForm: BookingForm := BookingForm("", "", 1, "standard", "", "", "")

  /** The guest counts the guest `<select>` offers. */
  const GuestOptions: seq<int> := [1, 2, 3, 4, 5, 6]

  /** The room-type `<select>`: each option's value and its label. */
  const RoomOptions: seq<(string, string)> := [
    ("standard", "Standard Room"),
    ("deluxe", "Deluxe Room"),
    ("executive-suite", "Executive Suite"),
    ("family", "Family Room")
  ]

  /** The acknowledgement the page shows on submit. */
  const Acknowledgement: string := "Booking request submitted! We will contact you shortly."

  /** The values of the room-type options, in order. */
  function OptionValues(): (vs: seq<string>)
    ensures vs == ["standard", "deluxe", "executive-suite", "family"]
  {
    seq(|RoomOptions|, k requires 0 <= k < |RoomOptions| => RoomOptions[k].0)
  }

  /** The names of the seven fields. */
  datatype Field = CheckIn | CheckOut | Guests | RoomType | Name | Email | Phone

  /** A field's value: text for six fields, a number for the guest count. */
  datatype FieldValue = Text(text: string) | Number(number: int)

  /** The value stored in field `f`. */
  function Read(form: BookingForm, f: Field): (v: FieldValue)
    ensures v.Number? <==> f == Guests
  {
    match f
    case CheckIn => Text(form.checkIn)
    case CheckOut => Text(form.checkOut)
    case Guests => Number(form.guests)
    case RoomType => Text(form.roomType)
    case Name => Text(form.name)
    case Email => Text(form.email)
    case Phone => Text(form.phone)
  }

  /** `after` is `{...before, f: v}`: field `f` now holds `v` and the other six are as they were. */
  predicate ReplacesOnly(before: BookingForm, after: BookingForm, f: Field, v: FieldValue)
  {
    Read(after, f) == v && forall g :: g != f ==> Read(after, g) == Read(before, g)
  }

  /** Two forms that agree on every field are the same form. */
  lemma ReadExtensional(a: BookingForm, b: BookingForm)
    requires forall f :: Read(a, f) == Read(b, f)
    ensures a == b
  {
    assert Read(a, CheckIn) == Read(b, CheckIn);
    assert Read(a, CheckOut) == Read(b, CheckOut);
    assert Read(a, Guests) == Read(b, Guests);
    assert Read(a, RoomType) == Read(b, RoomType);
    assert Read(a, Name) == Read(b, Name);
    assert Read(a, Email) == Read(b, Email);
    assert Read(a, Phone) == Read(b, Phone);
  }

  /** A single-field replacement determines the whole new form. */
  lemma ReplacesOnlyDetermines(before: BookingForm, a: BookingForm, b: BookingForm, f: Field, v: FieldValue)
    requires ReplacesOnly(before, a, f, v) && ReplacesOnly(before, b, f, v)
    ensures a == b
  {
    forall g ensures Read(a, g) == Read(b, g) {
      if g != f {
        assert Read(a, g) == Read(before, g) == Read(b, g);
      }
    }
    ReadExtensional(a, b);
  }

  /** Two replacements of different fields commute. */
  lemma ReplacementsCommute(
    before: BookingForm, mid1: BookingForm, after1: BookingForm,
    mid2: BookingForm, after2: BookingForm,
    f: Field, v: FieldValue, g: Field, w: FieldValue)
    requires f != g
    requires ReplacesOnly(before, mid1, f, v) && ReplacesOnly(mid1, after1, g, w)
    requires ReplacesOnly(before, mid2, g, w) && ReplacesOnly(mid2, after2, f, v)
    ensures after1 == after2
  {
    forall h ensures Read(after1, h) == Read(after2, h) {
      if h != f && h != g {
        assert Read(after1, h) == Read(mid1, h) == Read(before, h);
        assert Read(after2, h) == Read(mid2, h) == Read(before, h);
      }
    }
    ReadExtensional(after1, after2);
  }

  /** ASCII lower-casing of one character; every other character is kept. */
  function LowerChar(c: char): (r: char)
    ensures 'A' <= c <= 'Z' ==> 'a' <= r <= 'z' && r as int - 'a' as int == c as int - 'A' as int
    ensures !('A' <= c <= 'Z') ==> r == c
  {
    if 'A' <= c <= 'Z' then (c as int - 'A' as int + 'a' as int) as char else c
  }

  /** `s.toLowerCase()` on ASCII letters: each character lower-cased in place. */
  function ToLower(s: string): (r: string)
    ensures |r| == |s|
    ensures forall k :: 0 <= k < |s| ==> r[k] == LowerChar(s[k])
    ensures forall k :: 0 <= k < |r| ==> !('A' <= r[k] <= 'Z')
  {
    seq(|s|, k requires 0 <= k < |s| => LowerChar(s[k]))
  }

  /** Lower-casing twice is lower-casing once. */
  lemma ToLowerIdempotent(s: string)
    ensures ToLower(ToLower(s)) == ToLower(s)
  {
    var once := ToLower(s);
    var twice := ToLower(once);
    forall k | 0 <= k < |s| ensures twice[k] == once[k] {
      assert !('A' <= once[k] <= 'Z');
    }
  }

  /** The position of the first `c` at or after `from`, or `|s|` when there is none. */
  function FirstIndexFrom(s: string, c: char, from: nat): (i: nat)
    requires from <= |s|
    ensures from <= i <= |s|
    ensures i < |s| ==> s[i] == c
    ensures forall k :: from <= k < i ==> s[k] != c
    decreases |s| - from
  {
    if from == |s| || s[from] == c then from else FirstIndexFrom(s, c, from + 1)
  }

  /** The position of the first `c` in `s`, or `|s|` when `c` does not occur. */
  function FirstIndex(s: string, c: char): (i: nat)
    ensures i <= |s|
    ensures i < |s| <==> c in s
    ensures i < |s| ==> s[i] == c && c !in s[..i]
  {
    var i := FirstIndexFrom(s, c, 0);
    assert forall k :: 0 <= k < i ==> s[k] != c;
    i
  }

  /** `s.replace(from, to)` for a one-character pattern: only the first occurrence is replaced. */
  function ReplaceFirst(s: string, from: char, to: char): (r: string)
    ensures |r| == |s|
    ensures from !in s ==> r == s
    ensures from in s ==> r == s[..FirstIndex(s, from)] + [to] + s[FirstIndex(s, from) + 1..]
  {
    var i := FirstIndex(s, from);
    var r := seq(|s|, k requires 0 <= k < |s| => if k == i then to else s[k]);
    assert from in s ==> r == s[..i] + [to] + s[i + 1..];
    r
  }

  /** The key "Select Room" writes into `roomType`. */
  function RoomKey(name: string): string
  {
    ReplaceFirst(ToLower(name), ' ', '-')
  }

  /**
   * What a room key looks like: as long as the name, no upper-case letter, and
   * every character lower-cased except the first space, which becomes a dash.
   */
  lemma RoomKeyShape(name: string)
    ensures |RoomKey(name)| == |name|
    ensures forall k :: 0 <= k < |RoomKey(name)| ==> !('A' <= RoomKey(name)[k] <= 'Z')
    ensures ' ' !in name ==> RoomKey(name) == ToLower(name)
    ensures ' ' in name ==>
              var i := FirstIndex(name, ' ');
              RoomKey(name)[i] == '-' && ' ' !in RoomKey(name)[..i] &&
              forall k :: 0 <= k < |name| && k != i ==> RoomKey(name)[k] == LowerChar(name[k])
  {
    LowerKeepsFirstSpace(name);
  }

  /** Lower-casing moves no space: the first space of the name is the first space of its lower-case form. */
  lemma LowerKeepsFirstSpace(name: string)
    ensures (' ' in ToLower(name)) <==> (' ' in name)
    ensures FirstIndex(ToLower(name), ' ') == FirstIndex(name, ' ')
  {
    var lower := ToLower(name);
    forall k | 0 <= k < |name| ensures (lower[k] == ' ') <==> (name[k] == ' ') {
    }
  }

  lemma LowerStandardRoom() ensures ToLower("Standard Room") == "standard room" {}
  lemma LowerDeluxeRoom() ensures ToLower("Deluxe Room") == "deluxe room" {}
  lemma LowerExecutiveSuite() ensures ToLower("Executive Suite") == "executive suite" {}
  lemma LowerFamilyRoom() ensures ToLower("Family Room") == "family room" {}
  lemma LowerDeluxeCityRoom() ensures ToLower("Deluxe City Room") == "deluxe city room" {}

  /** A room key assembled from the name's lower-case form and the position of its first space. */
  lemma RoomKeyFromParts(name: string, lower: string, i: nat)
    requires ToLower(name) == lower && FirstIndex(lower, ' ') == i && i < |lower|
    ensures RoomKey(name) == lower[..i] + "-" + lower[i + 1..]
  {
  }

  /** The keys the four "Select Room" buttons write, one per room. */
  lemma StandardRoomKey()
    ensures RoomKey("Standard Room") == "standard-room"
  {
    LowerStandardRoom();
    assert FirstIndex("standard room", ' ') == 8;
    RoomKeyFromParts("Standard Room", "standard room", 8);
  }

  lemma DeluxeRoomKey()
    ensures RoomKey("Deluxe Room") == "deluxe-room"
  {
    LowerDeluxeRoom();
    assert FirstIndex("deluxe room", ' ') == 6;
    RoomKeyFromParts("Deluxe Room", "deluxe room", 6);
  }

  lemma ExecutiveSuiteKey()
    ensures RoomKey("Executive Suite") == "executive-suite"
  {
    LowerExecutiveSuite();
    assert FirstIndex("executive suite", ' ') == 9;
    RoomKeyFromParts("Executive Suite", "executive suite", 9);
  }

  lemma FamilyRoomKey()
    ensures RoomKey("Family Room") == "family-room"
  {
    LowerFamilyRoom();
    assert FirstIndex("family room", ' ') == 6;
    RoomKeyFromParts("Family Room", "family room", 6);
  }

  /** Only the first space becomes a dash; later spaces stay. */
  lemma OnlyFirstSpaceReplaced()
    ensures RoomKey("Deluxe City Room") == "deluxe-city room"
  {
    LowerDeluxeCityRoom();
    assert FirstIndex("deluxe city room", ' ') == 6;
    RoomKeyFromParts("Deluxe City Room", "deluxe city room", 6);
  }

  /** The names of the four rooms, in order ("Select Room" buttons follow this order). */
  lemma RoomNamesListed()
    ensures |Content.Rooms| == 4
    ensures Content.Rooms[0].name == "Standard Room"
    ensures Content.Rooms[1].name == "Deluxe Room"
    ensures Content.Rooms[2].name == "Executive Suite"
    ensures Content.Rooms[3].name == "Family Room"
  {
  }

  /** The room-type options are labelled with the room names, in the order the rooms are listed. */
  lemma OptionLabelsAreRoomNames()
    ensures |RoomOptions| == |Content.Rooms|
    ensures forall r :: 0 <= r < |RoomOptions| ==> RoomOptions[r].1 == Content.Rooms[r].name
  {
    RoomNamesListed();
  }

  lemma StandardRoomKeyIsNoOption()
    ensures RoomKey(Content.Rooms[0].name) !in OptionValues()
  {
    RoomNamesListed();
    StandardRoomKey();
  }

  lemma DeluxeRoomKeyIsNoOption()
    ensures RoomKey(Content.Rooms[1].name) !in OptionValues()
  {
    RoomNamesListed();
    DeluxeRoomKey();
  }

  lemma ExecutiveSuiteKeyIsAnOption()
    ensures RoomKey(Content.Rooms[2].name) in OptionValues()
  {
    RoomNamesListed();
    ExecutiveSuiteKey();
  }

  lemma FamilyRoomKeyIsNoOption()
    ensures RoomKey(Content.Rooms[3].name) !in OptionValues()
  {
    RoomNamesListed();
    FamilyRoomKey();
  }

  /** Of the four rooms, only the Executive Suite's key is one of the room-type option values. */
  lemma OnlyExecutiveSuiteKeyIsAnOption()
    ensures forall r :: 0 <= r < |Content.Rooms| ==>
              (RoomKey(Content.Rooms[r].name) in OptionValues() <==> r == 2)
  {
    assert |Content.Rooms| == 4;
    forall r | 0 <= r < |Content.Rooms|
      ensures RoomKey(Content.Rooms[r].name) in OptionValues() <==> r == 2
    {
      if r == 0 {
        StandardRoomKeyIsNoOption();
      } else if r == 1 {
        DeluxeRoomKeyIsNoOption();
      } else if r == 2 {
        ExecutiveSuiteKeyIsAnOption();
      } else {
        FamilyRoomKeyIsNoOption();
      }
    }
  }
}
