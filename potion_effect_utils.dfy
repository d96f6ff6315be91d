/**
 * The name-based potion-effect codec (Utils/PotionEffectUtils.java): one
 * effect per string, `name,amplifier,duration`; lists of effects become
 * lists of strings, and strings that do not parse are dropped.
 */
module PotionEffectUtils {
  import opened Common
  import opened JavaStrings

  /**
   * A potion effect as the codec sees it. The effect type is identified by
   * its name (PotionEffectType.getName / getByName); fields are in the order
   * of Bukkit's `new PotionEffect(type, duration, amplifier)`.
   */
  datatype PotionEffect = PotionEffect(effectType: string, duration: Int32, amplifier: Int32)

  /** Why a string is not an effect: a field is missing (ArrayIndexOutOfBoundsException) or is not an int (NumberFormatException). */
  datatype ParseError = MissingField | NotAnInteger

  /** `serialize(effect)`: name, amplifier and duration joined with commas. */
  function Serialize(e: PotionEffect): string
  {
    e.effectType + "," + IntToString(e.amplifier) + "," + IntToString(e.duration)
  }

  /**
   * `deserialize(source)`: split into at most three comma fields; field 1 is
   * the amplifier, field 2 the duration (the rest of the string after the
   * second comma). Fields are read in the order the source reads them.
   */
  function Deserialize(source: string): (r: Result<PotionEffect, ParseError>)
    ensures r.Ok? ==> r.value.effectType == SplitLimit(source, ',', 3)[0]
    ensures ',' !in source ==> r == Err(MissingField)
  {
    var split := SplitLimit(source, ',', 3);
    if |split| < 2 then Err(MissingField)
    else match ParseInt(split[1])
      case None => Err(NotAnInteger)
      case Some(amplifier) =>
        if |split| < 3 then Err(MissingField)
        else match ParseInt(split[2])
          case None => Err(NotAnInteger)
          case Some(duration) => Ok(PotionEffect(split[0], duration, amplifier))
  }

  /** A type name that can round-trip: the field separator does not occur in it. */
  predicate Printable(e: PotionEffect)
  {
    ',' !in e.effectType
  }

  /** `deserialize(serialize(e))` gives back the same type name, amplifier and duration. */
  lemma RoundTrip(e: PotionEffect)
    requires Printable(e)
    ensures Deserialize(Serialize(e)) == Ok(e)
  {
    var amp, dur := IntToString(e.amplifier), IntToString(e.duration);
    IntToStringHasNo(e.amplifier, ',');
    IntToStringHasNo(e.duration, ',');
    assert Serialize(e) == e.effectType + [','] + (amp + [','] + dur);
    SplitLimitStep(e.effectType, ',', amp + [','] + dur, 3);
    SplitLimitStep(amp, ',', dur, 2);
    assert SplitLimit(Serialize(e), ',', 3) == [e.effectType, amp, dur];
    ParseIntToString(e.amplifier);
    ParseIntToString(e.duration);
  }

  /** An amplifier field that is not a number makes the string unreadable. */
  lemma BadAmplifierRejected(name: string, amp: string, dur: string)
    requires ',' !in name && ',' !in amp && ParseInt(amp).None?
    ensures Deserialize(name + "," + amp + "," + dur) == Err(NotAnInteger)
  {
    assert name + "," + amp + "," + dur == name + [','] + (amp + [','] + dur);
    SplitLimitStep(name, ',', amp + [','] + dur, 3);
    SplitLimitStep(amp, ',', dur, 2);
  }

  // ---------------------------------------------------------------------
  // Lists of effects
  // ---------------------------------------------------------------------

  /** The strings `toStringList` produces: one serialized string per effect, in order. */
  function Strings(effects: seq<PotionEffect>): (r: seq<string>)
    ensures |r| == |effects|
  {
    seq(|effects|, i requires 0 <= i < |effects| => Serialize(effects[i]))
  }

  /** The effects `toEffectList` keeps: those strings that parse, in their order. */
  function Parsed(ss: seq<string>): seq<PotionEffect>
  {
    if ss == [] then [] else Parsed(ss[..|ss| - 1]) + Kept(ss[|ss| - 1])
  }

  /** What one string contributes to toEffectList: its effect, or nothing when it does not parse. */
  function Kept(s: string): seq<PotionEffect>
  {
    var r := Deserialize(s);
    if r.Ok? then [r.value] else []
  }

  lemma ParsedSnoc(ss: seq<string>, s: string)
    ensures Parsed(ss + [s]) == Parsed(ss) + Kept(s)
  {
    assert (ss + [s])[..|ss|] == ss;
  }

  /** `toStringList(effects)`: preserves length and order. */
  method ToStringList(effects: seq<PotionEffect>) returns (result: seq<string>)
    ensures |result| == |effects|
    ensures forall i :: 0 <= i < |effects| ==> result[i] == Serialize(effects[i])
  {
    result := [];
    for i := 0 to |effects|
      invariant |result| == i
      invariant forall k :: 0 <= k < i ==> result[k] == Serialize(effects[k])
    {
      result := result + [Serialize(effects[i])];
    }
  }

  /** `toEffectList(serialized)`: the parsed effects, malformed strings skipped. */
  method ToEffectList(serialized: seq<string>) returns (effects: seq<PotionEffect>)
    ensures effects == Parsed(serialized)
    ensures |effects| <= |serialized|
  {
    effects := [];
    for i := 0 to |serialized|
      invariant effects == Parsed(serialized[..i])
    {
      assert serialized[..i + 1][..i] == serialized[..i];
      var r := Deserialize(serialized[i]);
      if r.Ok? {
        effects := effects + [r.value];
      }
    }
    assert serialized[..|serialized|] == serialized;
    ParsedShorter(serialized);
  }

  /** toEffectList's output is never longer than its input. */
  lemma {:induction false} ParsedShorter(ss: seq<string>)
    ensures |Parsed(ss)| <= |ss|
  {
    if ss != [] {
      ParsedShorter(ss[..|ss| - 1]);
    }
  }

  /** Parsing distributes over concatenation of string lists. */
  lemma {:induction false} ParsedAppend(a: seq<string>, b: seq<string>)
    ensures Parsed(a + b) == Parsed(a) + Parsed(b)
    decreases |b|
  {
    if b == [] {
      assert a + b == a;
    } else {
      var b' := b[..|b| - 1];
      assert (a + b)[..|a + b| - 1] == a + b';
      ParsedAppend(a, b');
    }
  }

  /** A malformed string contributes nothing and disturbs nothing around it. */
  lemma MalformedDropped(a: seq<string>, s: string, b: seq<string>)
    requires Deserialize(s).Err?
    ensures Parsed(a + [s] + b) == Parsed(a) + Parsed(b)
  {
    ParsedAppend(a + [s], b);
    assert (a + [s])[..|a + [s]| - 1] == a;
    assert Parsed(a + [s]) == Parsed(a);
  }

  lemma StringsSnoc(init: seq<PotionEffect>, last: PotionEffect)
    ensures Strings(init + [last]) == Strings(init) + [Serialize(last)]
  {
  }

  /** toEffectList(toStringList(effects)) gives every effect back, in order. */
  lemma {:induction false} ListRoundTrip(effects: seq<PotionEffect>)
    requires forall i :: 0 <= i < |effects| ==> Printable(effects[i])
    ensures Parsed(Strings(effects)) == effects
  {
    if effects != [] {
      var n := |effects| - 1;
      var init, last := effects[..n], effects[n];
      assert effects == init + [last];
      StringsSnoc(init, last);
      ListRoundTrip(init);
      RoundTrip(last);
      ParsedSnoc(Strings(init), Serialize(last));
    }
  }
}
