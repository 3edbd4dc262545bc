/** The log levels of src/lib/getLoxLogLevel.ts and the level filter of
    src/lib/logger.ts. The ordered level list (most severe first) lives
    in src/common/constants.ts, which is not part of this model: it is a
    parameter `ordered`; `BASE_LEVEL_ORDER` is the order of the level
    type in src/common/types/base.ts. */
module LogLevel {
  import opened Wrappers

  /** The level names in the order of the level type. */
  const BASE_LEVEL_ORDER: seq<string> := ["error", "warning", "info", "verbose", "debug"]

  /** `xs.indexOf(x)`: the first position of `x`, or -1. */
  function IndexOf(xs: seq<string>, x: string): (i: int)
    ensures i == -1 <==> x !in xs
    ensures 0 <= i ==> i < |xs| && xs[i] == x && forall k :: 0 <= k < i ==> xs[k] != x
    ensures -1 <= i
  {
    if xs == [] then -1
    else if xs[0] == x then 0
    else
      var rest := IndexOf(xs[1..], x);
      if rest == -1 then -1 else rest + 1
  }

  /** The logger's `writeLevels` for a configured level: the levels up to
      and including it, none for a level the list does not hold. */
  function WriteLevels(ordered: seq<string>, level: string): seq<string> {
    ordered[..IndexOf(ordered, level) + 1]
  }

  /** A message is written iff its level is listed no later than the
      configured level, which must itself be listed. */
  lemma WrittenIffAsSevere(ordered: seq<string>, configured: string, level: string)
    ensures level in WriteLevels(ordered, configured) <==>
      configured in ordered && level in ordered && IndexOf(ordered, level) <= IndexOf(ordered, configured)
  {
    var w := WriteLevels(ordered, configured);
    if level in w {
      var k :| 0 <= k < |w| && w[k] == level;
      assert ordered[k] == level;
    }
    if configured in ordered && level in ordered && IndexOf(ordered, level) <= IndexOf(ordered, configured) {
      assert w[IndexOf(ordered, level)] == level;
    }
  }

  /** With the level type's order, the default level writes errors,
      warnings and info, and nothing more verbose. */
  lemma DefaultLevelWrites()
    ensures WriteLevels(BASE_LEVEL_ORDER, "info") == ["error", "warning", "info"]
  {
    assert IndexOf(BASE_LEVEL_ORDER, "info") == 2;
  }

  /** `getLoxLogLevel` for the value of `LOX_LOG_LEVEL`: an unset or empty
      value gives "info"; a listed level is kept; anything else gives
      "info". */
  function GetLoxLogLevel(env: Option<string>, ordered: seq<string>): (level: string)
    ensures env.None? || env.value == "" ==> level == "info"
    ensures env.Some? && env.value != "" && env.value in ordered ==> level == env.value
    ensures env.Some? && env.value !in ordered ==> level == "info"
    ensures level == "info" || level in ordered
  {
    if env.None? || env.value == "" then "info"
    else if env.value in ordered then env.value
    else "info"
  }
}
