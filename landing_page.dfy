/**
 * The landing page's own state: the current feature slide and the booking
 * form. The viewport width is passed to each carousel handler instead of being
 * read from `window`; `None` stands for "no window".
 */
module LandingPage {
  import opened Wrappers
  import Carousel
  import Content
  import opened Booking

  /** The number of carousel slides for the page's five features at a viewport width. */
  function FeaturePages(width: Option<int>): (p: nat)
    ensures p == Carousel.PageCount(|Content.Features|, Carousel.CardsPerSlide(width))
    ensures width.None? || width.value >= Carousel.LargeScreen ==> p == 2
    ensures width.Some? && Carousel.MediumScreen <= width.value < Carousel.LargeScreen ==> p == 3
    ensures width.Some? && width.value < Carousel.MediumScreen ==> p == 5
  {
    Carousel.PageCount(|Content.Features|, Carousel.CardsPerSlide(width))
  }

  /** The carousel as rendered at a viewport width for a slide index. */
  function FeatureCarousel(width: Option<int>, current: int): (v: Carousel.CarouselView<Content.Feature>)
    ensures |v.panels| == FeaturePages(width) && Carousel.Concat(v.panels) == Content.Features
    ensures v.showArrows && |v.dots| == FeaturePages(width)
    ensures forall k :: 0 <= k < |v.dots| ==> v.dots[k].index == k && (v.dots[k].active <==> k == current)
  {
    Carousel.PanelsPartition(Content.Features, Carousel.CardsPerSlide(width));
    Carousel.Render(Content.Features, Carousel.CardsPerSlide(width), current)
  }

  class Landing {
    var currentSlide: int
    var form: BookingForm

    /** The slide index is never negative and the guest count is one the form offers. */
    ghost predicate Valid()
      reads this
    {
      currentSlide >= 0 && form.guests in GuestOptions
    }

    constructor ()
      ensures Valid()
      ensures currentSlide == 0
      ensures form.checkIn == "" && form.checkOut == "" && form.guests == 1 && form.roomType == "standard"
      ensures form.name == "" && form.email == "" && form.phone == ""
    {
      currentSlide := 0;
      form := InitialForm;
    }

    /** The "next" arrow: advance one slide, wrapping from the last to the first. */
    method NextFeatureSlide(width: Option<int>)
      requires Valid()
      modifies this
      ensures Valid() && form == old(form)
      ensures currentSlide == Carousel.Next(old(currentSlide), FeaturePages(width))
      ensures 0 <= currentSlide < FeaturePages(width)
      ensures old(currentSlide) == FeaturePages(width) - 1 ==> currentSlide == 0
    {
      var pages := FeaturePages(width);
      currentSlide := Carousel.Next(currentSlide, pages);
    }

    /** The "previous" arrow: go back one slide, wrapping from the first to the last. */
    method PrevFeatureSlide(width: Option<int>)
      requires Valid()
      modifies this
      ensures Valid() && form == old(form)
      ensures currentSlide == Carousel.Prev(old(currentSlide), FeaturePages(width))
      ensures 0 <= currentSlide < FeaturePages(width)
      ensures old(currentSlide) == 0 ==> currentSlide == FeaturePages(width) - 1
    {
      var pages := FeaturePages(width);
      currentSlide := Carousel.Prev(currentSlide, pages);
    }

    /** An indicator dot: jump straight to slide `k` (the dots only offer indices that exist). */
    method JumpTo(k: nat)
      requires Valid()
      modifies this
      ensures Valid() && form == old(form)
      ensures currentSlide == k
    {
      currentSlide := k;
    }

    /** The check-in date input. */
    method SetCheckIn(value: string)
      requires Valid()
      modifies this
      ensures Valid() && currentSlide == old(currentSlide)
      ensures ReplacesOnly(old(form), form, CheckIn, Text(value))
    {
      form := form.(checkIn := value);
    }

    /** The check-out date input. */
    method SetCheckOut(value: string)
      requires Valid()
      modifies this
      ensures Valid() && currentSlide == old(currentSlide)
      ensures ReplacesOnly(old(form), form, CheckOut, Text(value))
    {
      form := form.(checkOut := value);
    }

    /** The guest-count select, which offers 1 to 6 guests. */
    method SetGuests(count: int)
      requires Valid()
      requires count in GuestOptions
      modifies this
      ensures Valid() && currentSlide == old(currentSlide)
      ensures ReplacesOnly(old(form), form, Guests, Number(count))
    {
      form := form.(guests := count);
    }

    /** The room-type select: stores the chosen option's value. */
    method SetRoomType(value: string)
      requires Valid()
      modifies this
      ensures Valid() && currentSlide == old(currentSlide)
      ensures ReplacesOnly(old(form), form, RoomType, Text(value))
    {
      form := form.(roomType := value);
    }

    /** The full-name input. */
    method SetName(value: string)
      requires Valid()
      modifies this
      ensures Valid() && currentSlide == old(currentSlide)
      ensures ReplacesOnly(old(form), form, Name, Text(value))
    {
      form := form.(name := value);
    }

    /** The e-mail input. */
    method SetEmail(value: string)
      requires Valid()
      modifies this
      ensures Valid() && currentSlide == old(currentSlide)
      ensures ReplacesOnly(old(form), form, Email, Text(value))
    {
      form := form.(email := value);
    }

    /** The phone input. */
    method SetPhone(value: string)
      requires Valid()
      modifies this
      ensures Valid() && currentSlide == old(currentSlide)
      ensures ReplacesOnly(old(form), form, Phone, Text(value))
    {
      form := form.(phone := value);
    }

    /** A room card's "Select Room" button: writes the key derived from the room's name. */
    method SelectRoom(roomName: string)
      requires Valid()
      modifies this
      ensures Valid() && currentSlide == old(currentSlide)
      ensures ReplacesOnly(old(form), form, RoomType, Text(RoomKey(roomName)))
    {
      var key := RoomKey(roomName);
      form := form.(roomType := key);
    }

    /**
     * Submitting the form: returns the record the page logs and the
     * acknowledgement it shows; the state is left as it is.
     */
    method Submit() returns (logged: BookingForm, message: string)
      requires Valid()
      ensures logged == form
      ensures message == Acknowledgement
    {
      logged := form;
      message := Acknowledgement;
    }
  }
}
