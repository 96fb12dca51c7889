/**
 * The synthesis voices the host platform enumerates and the rules that pick one:
 * the first voice whose language tag starts with "en-IN", or the index the user
 * chose in the voice selector.
 */
module Voices {
  import opened Wrappers

  /** A voice descriptor as the host lists it; only its name and language tag matter here. */
  datatype Voice = Voice(name: string, lang: string)

  /** The regional variant the client prefers, for both recognition and synthesis. */
  const REGIONAL_LANG: string := "en-IN"

  predicate IsRegional(v: Voice) {
    REGIONAL_LANG <= v.lang
  }

  /** `voices.findIndex(v => v.lang.startsWith("en-IN"))`: the first regional voice, or -1 when there is none. */
  function FindRegional(voices: seq<Voice>): (r: int)
    ensures -1 <= r < |voices|
    ensures r == -1 <==> forall k :: 0 <= k < |voices| ==> !IsRegional(voices[k])
    ensures r >= 0 ==> IsRegional(voices[r])
    ensures r >= 0 ==> forall k :: 0 <= k < r ==> !IsRegional(voices[k])
  {
    if voices == [] then -1
    else if IsRegional(voices[0]) then 0
    else
      var k := FindRegional(voices[1..]);
      if k == -1 then -1 else k + 1
  }

  /** The index `populateVoiceList` stores. The source writes `findIndex(...) || 0`; an integer is falsy
      only when it is 0, so `|| 0` changes no index, and in particular leaves -1 (no regional voice) as -1. */
  function PreferredIndex(voices: seq<Voice>): (r: int)
    ensures r == FindRegional(voices)
    ensures r == -1 <==> forall k :: 0 <= k < |voices| ==> !IsRegional(voices[k])
    ensures 0 <= r ==> r < |voices| && IsRegional(voices[r])
  {
    var found := FindRegional(voices);
    if found == 0 then 0 else found
  }

  /** `voices[i]`: undefined (None) for any index outside the list, -1 included. */
  function VoiceAt(voices: seq<Voice>, i: int): (r: Option<Voice>)
    ensures r.Some? <==> 0 <= i < |voices|
    ensures r.Some? ==> r.value == voices[i]
  {
    if 0 <= i < |voices| then Some(voices[i]) else None
  }

  /** The selector's change handler: `parseInt(value || "0", 10) || 0`, where `parsed` is the result of
      `parseInt` (None for NaN). NaN and 0 both give 0; any other number is kept, in range or not. */
  function SelectedIndex(parsed: Option<int>): (r: int)
    ensures parsed.None? ==> r == 0
    ensures parsed.Some? ==> r == parsed.value
  {
    match parsed
    case None => 0
    case Some(n) => if n == 0 then 0 else n
  }

  /** With no regional voice in the list the stored index is -1, which names no voice,
      so no voice is set on the utterance and the platform default speaks, even when voices exist. */
  lemma NoRegionalVoiceSelectsNone(voices: seq<Voice>)
    requires forall k :: 0 <= k < |voices| ==> !IsRegional(voices[k])
    ensures VoiceAt(voices, PreferredIndex(voices)) == None
  {
  }
}
