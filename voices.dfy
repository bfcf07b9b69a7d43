/**
 * How the page names voices: the selector shows `"<name> - <description>"`,
 * a profile stores that display string, and the generator is given the part
 * before the first `" - "`.
 */
module Voices {
  import opened PyStr

  const Separator := " - "

  /** `f"{name} - {desc}"`: the selector's entry for one voice. */
  function VoiceDisplay(name: string, description: string): string
  {
    name + Separator + description
  }

  /** `display.split(' - ')[0]`: the voice name handed to the generator. */
  function VoiceNameForApi(display: string): (r: string)
    ensures |r| <= |display| && r == display[..|r|]
    ensures |r| == |display| || StartsWith(display[|r|..], Separator)
    ensures forall i :: 0 <= i < |r| ==> !StartsWith(display[i..], Separator)
  {
    BeforeFirst(display, Separator)
  }

  /**
   * A name without spaces survives the round trip through the selector:
   * the generator receives exactly the voice the entry was built from,
   * whatever its description says.
   */
  lemma NameSurvivesDisplay(name: string, description: string)
    requires ' ' !in name
    ensures VoiceNameForApi(VoiceDisplay(name, description)) == name
  {
    var s := VoiceDisplay(name, description);
    var r := BeforeFirst(s, Separator);
    assert s[|name|..][..|Separator|] == Separator;
    forall i | 0 <= i < |name| ensures !StartsWith(s[i..], Separator) {
      assert s[i..][0] == s[i] == name[i];
      assert name[i] in name;
    }
    assert |r| == |name|;
    assert r == s[..|name|] == name;
  }

  /** The voice a fresh profile stores selects `Achernar`. */
  lemma DefaultVoiceName()
    ensures VoiceNameForApi("Achernar - Soft") == "Achernar"
  {
    assert "Achernar - Soft" == VoiceDisplay("Achernar", "Soft");
    NameSurvivesDisplay("Achernar", "Soft");
  }

  /** The selector position shown when the stored voice is not one of the entries. */
  const FallbackIndex := 20

  /**
   * `options.index(saved) if saved in options else 20`: the first position
   * holding the stored voice, else the fixed fallback position.
   */
  function VoiceIndex(options: seq<string>, saved: string): (r: nat)
    ensures saved in options ==> r < |options| && options[r] == saved && saved !in options[..r]
    ensures saved !in options ==> r == FallbackIndex
  {
    if saved in options then FirstIndex(options, saved) else FallbackIndex
  }

  /** `list.index(x)` for an `x` the list holds. */
  function FirstIndex(options: seq<string>, x: string): (r: nat)
    requires x in options
    ensures r < |options| && options[r] == x && x !in options[..r]
  {
    if options[0] == x then 0
    else
      assert x in options[1..];
      var k := FirstIndex(options[1..], x);
      assert options[..k + 1] == [options[0]] + options[1..][..k];
      k + 1
  }
}
