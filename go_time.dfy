/** The part of Go's `time` package the reader relies on. The calendar is not
    modelled: parsing is a parameter of type TimeParser, supplied by the
    environment (including the local time zone that `time.Now().Location()`
    gives), and the reader only decides which layouts to try, on which text,
    and in which order. */
module GoTime {
  import opened Wrappers

  /** An instant, as seconds since the Unix epoch plus nanoseconds, with the
      name of its location. */
  datatype Time = Time(unixSeconds: int, nanoseconds: int, location: string)

  /** Go's zero `time.Time`: January 1, year 1, 00:00:00 UTC. */
  const ZeroTime: Time := Time(-62135596800, 0, "UTC")

  /** A layout string; `inLocal` marks `time.ParseInLocation(..., Local)`
      rather than `time.Parse`. */
  datatype Layout = Layout(pattern: string, inLocal: bool)

  /** `time.Parse` (and `time.ParseInLocation` in the local zone) as a total
      function: None stands for a non-nil error. */
  type TimeParser = (Layout, string) -> Option<Time>

  const ANSIC: string := "Mon Jan _2 15:04:05 2006"
  const Pm12Padded: string := "Mon Jan 02 03:04:05 PM 2006 MST"
  const Pm12: string := "Mon Jan 2 03:04:05 PM 2006 MST"
  const Clock24: string := "Mon Jan _2 15:04:05 2006 MST"
  const Clock24ShortDay: string := "Mo Jan _2 15:04:05 2006 MST"

  /** The first layout under which `text` parses wins; None when none does. */
  function FirstParse(layouts: seq<Layout>, text: string, parse: TimeParser): (r: Option<Time>)
    ensures r.None? <==> forall i :: 0 <= i < |layouts| ==> parse(layouts[i], text).None?
    ensures r.Some? ==> exists i :: 0 <= i < |layouts| && parse(layouts[i], text) == r
                                    && forall j :: 0 <= j < i ==> parse(layouts[j], text).None?
  {
    if layouts == [] then None
    else if parse(layouts[0], text).Some? then parse(layouts[0], text)
    else
      var r := FirstParse(layouts[1..], text, parse);
      assert forall i :: 1 <= i < |layouts| ==> layouts[i] == layouts[1..][i - 1];
      r
  }
}
