/**
 The README text of `src/gitGotchiRenderer.ts`: the octocat SVG centred in a
 `div`, a greeting chosen from the current hour, and the never-assigned
 `data` variable, which JavaScript prints as "undefined".

 Reading the SVG file, the clock and writing README.md are outside the model:
 the SVG text (or `None` when the read failed) and the current hour are inputs.
 The greeting strings are the characters of the source file as they stand,
 UTF-8 emoji bytes that were decoded a second time as Windows-1252.
 */
module Renderer {
  import opened JsText
  import opened Activity

  const MorningGreeting: string := "#Good Morning \U{00F0}\U{0178}\U{0152}\U{00A4}"
  const AfternoonGreeting: string := "#Good Afternoon \U{00E2}\U{02DC}\U{20AC}\U{00EF}\U{00B8}"
  const EveningGreeting: string := "#Good Evening \U{00F0}\U{0178}\U{0152}\U{2020}"
  const SleepGreeting: string := "#You need to sleep bro! \U{00F0}\U{0178}\U{02DC}\U{00B4}"

  /**
   The `if … else if …` chain; `None` is a `greet` left undefined. It agrees
   with the statistics' four guards: an hour in [0, 24) gets the greeting of
   the bucket its commits are counted in, and any other hour gets none.
   */
  function Greeting(hour: HourValue): (g: Option<string>)
    ensures g.Some? <==> InDay(hour)
    ensures forall b :: g == Some(GreetingFor(b)) <==> BucketOf(hour) == Some(b)
  {
    assert MorningGreeting[6] != AfternoonGreeting[6];
    assert MorningGreeting[6] != EveningGreeting[6];
    assert MorningGreeting[1] != SleepGreeting[1];
    assert AfternoonGreeting[6] != EveningGreeting[6];
    assert AfternoonGreeting[1] != SleepGreeting[1];
    assert EveningGreeting[1] != SleepGreeting[1];
    if Within(hour, 6, 12) then Some(MorningGreeting)
    else if Within(hour, 12, 18) then Some(AfternoonGreeting)
    else if Within(hour, 18, 24) then Some(EveningGreeting)
    else if Within(hour, 0, 6) then Some(SleepGreeting)
    else None
  }

  /** The greeting the renderer shows for each bucket of the statistics. */
  function GreetingFor(b: Bucket): string
  {
    match b
    case Morning => MorningGreeting
    case Daytime => AfternoonGreeting
    case Evening => EveningGreeting
    case Night => SleepGreeting
  }

  const OpenTag: string := "<div align=\"center\">"
  const CloseTag: string := "</div>\n"

  /**
   `` content += `<div align="center">${svg}</div>\n${greet}` `` on an empty
   `content`: the centred SVG, then the greeting of the hour's bucket, or
   "undefined" for an hour outside [0, 24).
   */
  function Content(svg: Option<string>, hour: HourValue): (r: string)
    ensures InDay(hour) ==> r == OpenTag + Interpolate(svg) + CloseTag + GreetingFor(BucketOf(hour).value)
    ensures !InDay(hour) ==> r == OpenTag + Interpolate(svg) + CloseTag + "undefined"
  {
    OpenTag + Interpolate(svg) + CloseTag + Interpolate(Greeting(hour))
  }

  /**
   `content + "\n" + data`, the text written to README.md: the content, then a
   last line "undefined" from the never-assigned `data`. The pet is never read.
   */
  function ReadmeText<P>(pet: P, svg: Option<string>, hour: HourValue): (r: string)
    ensures InDay(hour) ==>
      r == OpenTag + Interpolate(svg) + CloseTag + GreetingFor(BucketOf(hour).value) + "\nundefined"
    ensures !InDay(hour) ==>
      r == OpenTag + Interpolate(svg) + CloseTag + "undefined\nundefined"
  {
    var data: Option<string> := None;
    var content := Content(svg, hour);
    LastLine(content);
    content + "\n" + Interpolate(data)
  }

  lemma LastLine(content: string)
    ensures content + "\n" + Interpolate(None) == content + "\nundefined"
  {
    assert Interpolate(None) == "undefined";
  }

  /** Two pets give the same README. */
  lemma ReadmeIgnoresPet<P>(pet1: P, pet2: P, svg: Option<string>, hour: HourValue)
    ensures ReadmeText(pet1, svg, hour) == ReadmeText(pet2, svg, hour)
  {
  }
}
