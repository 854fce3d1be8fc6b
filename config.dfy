/** The extension settings (src/config.ts): the defaults, the normalisation of the two
    minimum tile sizes, and applyConfig, which writes accepted values into the target
    object. The handlers also read and write `gaps` and `alternatingMode` on the same
    object (src/commands/handlers/core.ts:320, 551); config.ts does not declare them, so
    the caller supplies their first values. */
module Config {
  import opened Wrappers
  import opened Commands
  import opened Strategy

  const DefaultMinTileWidth: int := 300
  const DefaultMinTileHeight: int := 240

  /** A JavaScript value as applyConfig sees it after the user's file has been evaluated:
      numbers are finite (`NonFinite` stands for NaN and the infinities); arrays are
      objects. */
  datatype Value =
    | Undefined
    | Null
    | Bool(b: bool)
    | Num(n: real)
    | NonFinite
    | Str(s: string)
    | Func
    | Object(fields: map<string, Value>)

  /** `candidate[key]` of an object; anything else has no fields. */
  function Field(v: Value, key: string): (r: Value)
    ensures !v.Object? ==> r == Undefined
    ensures v.Object? && key in v.fields ==> r == v.fields[key]
  {
    if v.Object? && key in v.fields then v.fields[key] else Undefined
  }

  /** normalizeMinTileWidth / normalizeMinTileHeight (src/config.ts:11-33): a finite
      positive number, rounded down; nothing otherwise. */
  function NormalizeMinTile(v: Value): (r: Option<int>)
    ensures r.Some? <==> v.Num? && v.n > 0.0
    ensures r.Some? ==> r.value as real <= v.n < r.value as real + 1.0 && r.value >= 0
  {
    if !v.Num? then None
    else if v.n <= 0.0 then None
    else Some(v.n.Floor)
  }

  /** The new value of one field: the normalised update when there is one, else the old
      value. */
  function Updated(current: int, v: Value): (r: int)
    ensures NormalizeMinTile(v).None? ==> r == current
    ensures NormalizeMinTile(v).Some? ==> r == NormalizeMinTile(v).value
  {
    match NormalizeMinTile(v)
    case Some(n) => n
    case None => current
  }

  /** An illustration of the general lemmas above on single inputs: 251.9 becomes 251, and
      a value in (0, 1) becomes 0. */
  lemma NormalizeExamples()
    ensures NormalizeMinTile(Num(251.9)) == Some(251)
    ensures forall x: real :: 0.0 < x < 1.0 ==> NormalizeMinTile(Num(x)) == Some(0)
    ensures NormalizeMinTile(Num(0.0)) == None && NormalizeMinTile(Num(-3.0)) == None
    ensures NormalizeMinTile(NonFinite) == None && NormalizeMinTile(Str("300")) == None
  {
    assert (251.9).Floor == 251;
  }

  /** Applying the same update twice gives what applying it once gives. */
  lemma UpdatedIdempotent(current: int, v: Value)
    ensures Updated(Updated(current, v), v) == Updated(current, v)
  {
  }

  /** An update that is not an object changes neither field. */
  lemma NonObjectKeeps(current: int, v: Value, key: string)
    requires !v.Object?
    ensures Updated(current, Field(v, key)) == current
  {
  }

  class Config {
    var minTileWidth: int
    var minTileHeight: int
    var alternatingMode: AlternatingMode
    var gaps: Option<Gaps>

    /** `{ ...DEFAULT_CONFIG }` (src/config.ts:6-9). */
    constructor Defaults(alternatingMode: AlternatingMode, gaps: Option<Gaps>)
      ensures minTileWidth == DefaultMinTileWidth && minTileHeight == DefaultMinTileHeight
      ensures this.alternatingMode == alternatingMode && this.gaps == gaps
    {
      minTileWidth, minTileHeight := DefaultMinTileWidth, DefaultMinTileHeight;
      this.alternatingMode, this.gaps := alternatingMode, gaps;
    }

    /** applyConfig (src/config.ts:35-55): each size is replaced by its normalised update
        when it has one, independently of the other; a falsy or non-object update changes
        nothing; the target itself is returned. */
    method ApplyConfig(updates: Value) returns (r: Config)
      modifies this`minTileWidth, this`minTileHeight
      ensures r == this
      ensures minTileWidth == Updated(old(minTileWidth), Field(updates, "minTileWidth"))
      ensures minTileHeight == Updated(old(minTileHeight), Field(updates, "minTileHeight"))
    {
      if !updates.Object? {
        return this;
      }
      var width := NormalizeMinTile(Field(updates, "minTileWidth"));
      if width.Some? {
        minTileWidth := width.value;
      }
      var height := NormalizeMinTile(Field(updates, "minTileHeight"));
      if height.Some? {
        minTileHeight := height.value;
      }
      return this;
    }
  }
}
