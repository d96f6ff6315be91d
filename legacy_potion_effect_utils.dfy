/**
 * The id-based potion-effect codec of the earlier revision
 * (PotionEffectUtils.java in the package root): a collection of effects
 * becomes one string `id,amp,dur;id,amp,dur;...`, and reading it back
 * silently skips the pieces that do not parse.
 */
module LegacyPotionEffectUtils {
  import opened Common
  import opened JavaStrings

  /**
   * A potion effect identified by its numeric type id
   * (PotionEffectType.getId / getById), fields in the order of Bukkit's
   * `new PotionEffect(type, duration, amplifier)`.
   */
  datatype PotionEffect = PotionEffect(typeId: Int32, duration: Int32, amplifier: Int32)

  /** ArrayIndexOutOfBoundsException (a field is missing) or NumberFormatException. */
  datatype ParseError = MissingField | NotAnInteger

  /** `serializePotionEffect(effect)`: id, amplifier and duration joined with commas. */
  function SerializePotionEffect(e: PotionEffect): string
  {
    IntToString(e.typeId) + "," + IntToString(e.amplifier) + "," + IntToString(e.duration)
  }

  /**
   * `deserializePotionEffect(source)`: at most three comma fields, read as
   * id, amplifier and duration, in that order.
   */
  function DeserializePotionEffect(source: string): (r: Result<PotionEffect, ParseError>)
    ensures ParseInt(SplitLimit(source, ',', 3)[0]).None? ==> r == Err(NotAnInteger)
  {
    var split := SplitLimit(source, ',', 3);
    match ParseInt(split[0])
    case None => Err(NotAnInteger)
    case Some(id) =>
      if |split| < 2 then Err(MissingField)
      else match ParseInt(split[1])
        case None => Err(NotAnInteger)
        case Some(amplifier) =>
          if |split| < 3 then Err(MissingField)
          else match ParseInt(split[2])
            case None => Err(NotAnInteger)
            case Some(duration) => Ok(PotionEffect(id, duration, amplifier))
  }

  /** The string `serialize` builds: each effect followed by `;`. */
  function SerializeSpec(effects: seq<PotionEffect>): string
  {
    Terminated(Pieces(effects))
  }

  /** The printed effects of a list, one per element. */
  function Pieces(effects: seq<PotionEffect>): (r: seq<string>)
    ensures |r| == |effects|
  {
    seq(|effects|, i requires 0 <= i < |effects| => SerializePotionEffect(effects[i]))
  }

  /** Every piece followed by `;`. */
  function Terminated(pieces: seq<string>): string
  {
    if pieces == [] then "" else pieces[0] + ";" + Terminated(pieces[1..])
  }

  /** What one piece contributes to `deserialize`: its effect, or nothing. */
  function Kept(piece: string): seq<PotionEffect>
  {
    var r := DeserializePotionEffect(piece);
    if r.Ok? then [r.value] else []
  }

  /** The effects read from a list of pieces, in order. */
  function Collect(pieces: seq<string>): seq<PotionEffect>
  {
    if pieces == [] then [] else Collect(pieces[..|pieces| - 1]) + Kept(pieces[|pieces| - 1])
  }

  /** `deserialize(source)`: split on `;`, then keep the pieces that parse. */
  function DeserializeSpec(source: string): seq<PotionEffect>
  {
    Collect(Split(source, ';'))
  }

  lemma {:induction false} TerminatedSnoc(pieces: seq<string>, p: string)
    ensures Terminated(pieces + [p]) == Terminated(pieces) + p + ";"
  {
    if pieces == [] {
      assert pieces + [p] == [p];
    } else {
      assert (pieces + [p])[1..] == pieces[1..] + [p];
      TerminatedSnoc(pieces[1..], p);
    }
  }

  lemma SerializeSnoc(effects: seq<PotionEffect>, e: PotionEffect)
    ensures SerializeSpec(effects + [e]) == SerializeSpec(effects) + SerializePotionEffect(e) + ";"
  {
    PiecesSnoc(effects, e);
    TerminatedSnoc(Pieces(effects), SerializePotionEffect(e));
  }

  lemma SerializePrefix(effects: seq<PotionEffect>, i: nat)
    requires i < |effects|
    ensures SerializeSpec(effects[..i + 1]) == SerializeSpec(effects[..i]) + SerializePotionEffect(effects[i]) + ";"
  {
    assert effects[..i + 1] == effects[..i] + [effects[i]];
    SerializeSnoc(effects[..i], effects[i]);
  }

  /** `serialize(effects)`: appends every effect and a `;` to a builder. */
  method Serialize(effects: seq<PotionEffect>) returns (s: string)
    ensures s == SerializeSpec(effects)
    ensures effects == [] <==> s == ""
  {
    s := "";
    for i := 0 to |effects|
      invariant s == SerializeSpec(effects[..i])
    {
      SerializePrefix(effects, i);
      s := s + SerializePotionEffect(effects[i]);
      s := s + ";";
    }
    assert effects[..|effects|] == effects;
    SerializeEmptyIff(effects);
  }

  /** Only the empty list prints as the empty string: every effect leaves at least its `;`. */
  lemma SerializeEmptyIff(effects: seq<PotionEffect>)
    ensures SerializeSpec(effects) == "" <==> effects == []
  {
    if effects != [] {
      assert Pieces(effects)[0] == SerializePotionEffect(effects[0]);
      assert |Terminated(Pieces(effects))| >= 1;
    }
  }

  /** `deserialize(source)`: an effect for each piece that parses, in order. */
  method Deserialize(source: string) returns (effects: seq<PotionEffect>)
    ensures effects == DeserializeSpec(source)
  {
    var split := Split(source, ';');
    effects := [];
    for i := 0 to |split|
      invariant effects == Collect(split[..i])
    {
      assert split[..i + 1][..i] == split[..i];
      var r := DeserializePotionEffect(split[i]);
      if r.Ok? {
        effects := effects + [r.value];
      }
    }
    assert split[..|split|] == split;
  }

  /** One printed effect reads back as itself. */
  lemma PieceRoundTrip(e: PotionEffect)
    ensures DeserializePotionEffect(SerializePotionEffect(e)) == Ok(e)
  {
    var id, amp, dur := IntToString(e.typeId), IntToString(e.amplifier), IntToString(e.duration);
    IntToStringHasNo(e.typeId, ',');
    IntToStringHasNo(e.amplifier, ',');
    IntToStringHasNo(e.duration, ',');
    assert SerializePotionEffect(e) == id + [','] + (amp + [','] + dur);
    SplitLimitStep(id, ',', amp + [','] + dur, 3);
    SplitLimitStep(amp, ',', dur, 2);
    assert SplitLimit(SerializePotionEffect(e), ',', 3) == [id, amp, dur];
    ParseIntToString(e.typeId);
    ParseIntToString(e.amplifier);
    ParseIntToString(e.duration);
  }

  lemma PieceHasNoSeparator(e: PotionEffect)
    ensures ';' !in SerializePotionEffect(e)
  {
    IntToStringHasNo(e.typeId, ';');
    IntToStringHasNo(e.amplifier, ';');
    IntToStringHasNo(e.duration, ';');
  }

  /** Splitting `;`-terminated pieces that hold no `;` on every `;` gives the pieces and one empty tail. */
  lemma {:induction false} SplitTerminated(pieces: seq<string>)
    requires forall i :: 0 <= i < |pieces| ==> ';' !in pieces[i]
    ensures SplitAll(Terminated(pieces), ';') == pieces + [""]
  {
    if pieces != [] {
      var rest := Terminated(pieces[1..]);
      assert Terminated(pieces) == pieces[0] + [';'] + rest;
      SplitAllStep(pieces[0], ';', rest);
      SplitTerminated(pieces[1..]);
      assert pieces == [pieces[0]] + pieces[1..];
    }
  }

  /** Splitting a serialized list on every `;` gives its pieces and one empty tail. */
  lemma SplitSerialized(effects: seq<PotionEffect>)
    ensures SplitAll(SerializeSpec(effects), ';') == Pieces(effects) + [""]
  {
    forall i | 0 <= i < |effects|
      ensures ';' !in Pieces(effects)[i]
    {
      PieceHasNoSeparator(effects[i]);
    }
    SplitTerminated(Pieces(effects));
  }

  lemma CollectSnoc(pieces: seq<string>, piece: string)
    ensures Collect(pieces + [piece]) == Collect(pieces) + Kept(piece)
  {
    assert (pieces + [piece])[..|pieces|] == pieces;
  }

  lemma KeptPiece(e: PotionEffect)
    ensures Kept(SerializePotionEffect(e)) == [e]
  {
    PieceRoundTrip(e);
  }

  lemma PiecesSnoc(init: seq<PotionEffect>, last: PotionEffect)
    ensures Pieces(init + [last]) == Pieces(init) + [SerializePotionEffect(last)]
  {
  }

  /** Reading the pieces of a list back gives the list. */
  lemma {:induction false} CollectPieces(effects: seq<PotionEffect>)
    ensures Collect(Pieces(effects)) == effects
  {
    if effects != [] {
      var n := |effects| - 1;
      var init, last := effects[..n], effects[n];
      assert effects == init + [last];
      PiecesSnoc(init, last);
      CollectPieces(init);
      KeptPiece(last);
      CollectSnoc(Pieces(init), SerializePotionEffect(last));
    }
  }

  /** A non-empty serialized list splits on `;` into exactly its pieces. */
  lemma SplitSerializedNonEmpty(effects: seq<PotionEffect>)
    requires effects != []
    ensures Split(SerializeSpec(effects), ';') == Pieces(effects)
  {
    var s := SerializeSpec(effects);
    var ps := Pieces(effects);
    SplitSerialized(effects);
    assert |SplitAll(s, ';')| >= 2;
    var all := ps + [""];
    assert all[|all| - 1] == "" && all[..|all| - 1] == ps;
    assert DropTrailingEmpty(all) == DropTrailingEmpty(ps);
    assert ps[|ps| - 1] != "" by {
      PieceHasNoSeparator(effects[|ps| - 1]);
      assert |ps[|ps| - 1]| > 0;
    }
  }

  /** `deserialize(serialize(effects))` yields the same triples in the same order. */
  lemma RoundTrip(effects: seq<PotionEffect>)
    ensures DeserializeSpec(SerializeSpec(effects)) == effects
  {
    if effects == [] {
      assert Split("", ';') == [""];
      CollectSnoc([], "");
    } else {
      SplitSerializedNonEmpty(effects);
      CollectPieces(effects);
    }
  }

  /** The empty string, and any string without a `;` that is not an effect, read as no effects. */
  lemma NothingToRead(source: string)
    requires ';' !in source && DeserializePotionEffect(source).Err?
    ensures DeserializeSpec(source) == []
  {
    assert Collect([source]) == Collect([]) + Kept(source);
  }
}
