/**
 * The two ANSI colour wrappers (`Depo::Utils::Color.green` and `.red`, also
 * defined word for word as `Depo::CLI.green` and `.red`).
 */
module Color {
  import opened Wrappers

  const Esc: char := '\U{1B}'

  /** Foreground colour 42 of the 256-colour palette (a medium light green). */
  const GreenOn: string := [Esc] + "[38;5;42m"
  const RedOn: string := [Esc] + "[31m"
  const Reset: string := [Esc] + "[0m"

  function Green(s: string): (r: string)
    ensures |r| == |s| + 14
  {
    GreenOn + s + Reset
  }

  function Red(s: string): (r: string)
    ensures |r| == |s| + 9
  {
    RedOn + s + Reset
  }

  /** Removes a fixed prefix and suffix, if both are there. */
  function Unwrap(t: string, on: string, off: string): Option<string> {
    if |on| + |off| <= |t| && t[..|on|] == on && t[|t| - |off|..] == off
    then Some(t[|on|..|t| - |off|])
    else None
  }

  /** Stripping the colour codes recovers the text. */
  lemma UnwrapGreen(s: string)
    ensures Unwrap(Green(s), GreenOn, Reset) == Some(s)
  {
    var t := Green(s);
    assert t[..|GreenOn|] == GreenOn;
    assert t[|t| - |Reset|..] == Reset;
    assert t[|GreenOn|..|t| - |Reset|] == s;
  }

  lemma UnwrapRed(s: string)
    ensures Unwrap(Red(s), RedOn, Reset) == Some(s)
  {
    var t := Red(s);
    assert t[..|RedOn|] == RedOn;
    assert t[|t| - |Reset|..] == Reset;
    assert t[|RedOn|..|t| - |Reset|] == s;
  }

  /** Different texts never get the same colouring. */
  lemma ColorsInjective(s: string, t: string)
    ensures Green(s) == Green(t) ==> s == t
    ensures Red(s) == Red(t) ==> s == t
  {
    UnwrapGreen(s);
    UnwrapGreen(t);
    UnwrapRed(s);
    UnwrapRed(t);
  }

  /** A green text and a red text always differ (at the fourth character). */
  lemma GreenIsNotRed(s: string, t: string)
    ensures Green(s) != Red(t)
  {
    assert Green(s)[3] == '8';
    assert Red(t)[3] == '1';
  }
}
