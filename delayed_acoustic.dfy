/**
 * The delayed acoustic's delay range: how it is read from an acoustic definition
 * (either one `delay` value or a `delay_min`/`delay_max` pair) and how it is exposed
 * as the acoustic's output options, keyed by those two names.
 */
module Acoustics {
  import opened Wrappers

  /** Java's 64-bit `long`. */
  newtype Long = x: int | -0x8000_0000_0000_0000 <= x < 0x8000_0000_0000_0000

  /** The fields of an acoustic definition that hold whole numbers, by name. */
  type JsonObject = map<string, Long>

  const DelayKey: string := "delay"
  const MinKey: string := "delay_min"
  const MaxKey: string := "delay_max"

  /** The names under which a delayed acoustic exposes its bounds. */
  const OptionKeys: set<string> := {MinKey, MaxKey}

  /** A delay range as a value. */
  datatype Bounds = Bounds(min: Long, max: Long)

  /** The definition lacks a field that has to be read: the lookup yields null and reading it throws. */
  datatype ParseError = MissingField(key: string)

  /**
   * The delay range a definition describes: a single `delay` fixes both bounds and wins
   * over the pair; otherwise the lower bound and then the upper bound must be present.
   */
  function ParseDelay(json: JsonObject): (r: Result<Bounds, ParseError>)
    ensures DelayKey in json ==> r == Success(Bounds(json[DelayKey], json[DelayKey]))
    ensures DelayKey !in json ==> (r.Success? <==> MinKey in json && MaxKey in json)
    ensures DelayKey !in json && r.Success? ==> r.value == Bounds(json[MinKey], json[MaxKey])
    ensures r.Failure? ==> r.error.key !in json && r.error.key in OptionKeys
    ensures DelayKey !in json && MinKey !in json ==> r == Failure(MissingField(MinKey))
  {
    if DelayKey in json then
      Success(Bounds(json[DelayKey], json[DelayKey]))
    else if MinKey !in json then
      Failure(MissingField(MinKey))
    else if MaxKey !in json then
      Failure(MissingField(MaxKey))
    else
      Success(Bounds(json[MinKey], json[MaxKey]))
  }

  /** With `delay` present, whatever the pair says does not change the outcome. */
  lemma SingleDelayOverridesPair(json: JsonObject, lo: Long, hi: Long)
    requires DelayKey in json
    ensures ParseDelay(json[MinKey := lo][MaxKey := hi]) == ParseDelay(json)
    ensures ParseDelay(json - {MinKey, MaxKey}) == ParseDelay(json)
  {
  }

  /** The options of a delay range, as a definition would spell them. */
  function OptionsOf(b: Bounds): (m: JsonObject)
    ensures m.Keys == OptionKeys
  {
    map[MinKey := b.min, MaxKey := b.max]
  }

  /** Reading a range's options back as a definition gives the same range. */
  lemma OptionsRoundTrip(b: Bounds)
    ensures ParseDelay(OptionsOf(b)) == Success(b)
  {
  }

  /** An inclusive range of ticks, changed in place through its two bounds. */
  class Period {
    var min: Long
    var max: Long

    constructor (value: Long)
      ensures min == value && max == value
    {
      min, max := value, value;
    }

    method Set(value: Long)
      modifies this
      ensures min == value && max == value
    {
      min, max := value, value;
    }

    method SetRange(lo: Long, hi: Long)
      modifies this
      ensures min == lo && max == hi
    {
      min, max := lo, hi;
    }
  }

  /**
   * An acoustic that plays its inner acoustic after a delay. It is its own output
   * options: the two delay bounds, readable and writable by key. `delay` is the
   * object getDelayRange hands out; it is never replaced, only changed in place.
   */
  class DelayedAcoustic {
    const delay: Period

    constructor ()
      ensures fresh(delay) && delay.min == 0 && delay.max == 0
    {
      delay := new Period(0);
    }

    /** The current delay range as a value. */
    function Range(): Bounds
      reads delay
    {
      Bounds(delay.min, delay.max)
    }

    /**
     * Builds a delayed acoustic from its definition; fails, as reading the missing field
     * does, when there is no `delay` and one of the pair is absent.
     */
    static method FromJson(json: JsonObject) returns (r: Result<DelayedAcoustic, ParseError>)
      ensures r.Success? <==> ParseDelay(json).Success?
      ensures r.Failure? ==> r.error == ParseDelay(json).error
      ensures r.Success? ==> fresh(r.value) && fresh(r.value.delay)
      ensures r.Success? ==> r.value.Range() == ParseDelay(json).value
      ensures r.Success? && DelayKey !in json ==>
        r.value.Get(MinKey) == Some(json[MinKey]) && r.value.Get(MaxKey) == Some(json[MaxKey])
    {
      var a := new DelayedAcoustic();
      if DelayKey in json {
        a.delay.Set(json[DelayKey]);
      } else if MinKey !in json {
        return Failure(MissingField(MinKey));
      } else if MaxKey !in json {
        return Failure(MissingField(MaxKey));
      } else {
        a.delay.SetRange(json[MinKey], json[MaxKey]);
      }
      r := Success(a);
    }

    /** Only the two bound names are options of a delayed acoustic; `delay` itself is not. */
    predicate ContainsKey(option: string): (r: bool)
      ensures r <==> option in OptionKeys
      ensures option == DelayKey ==> !r
    {
      option == MinKey || option == MaxKey
    }

    /** The value of an option: the lower or upper bound, and nothing for any other name. */
    function Get(option: string): (r: Option<Long>)
      reads delay
      ensures r.Some? <==> ContainsKey(option)
      ensures r.Some? ==> r.value == OptionsOf(Range())[option]
    {
      if option == MinKey then Some(delay.min)
      else if option == MaxKey then Some(delay.max)
      else None
    }

    /**
     * Sets a bound by its option name and returns this acoustic; any other name leaves
     * the range as it was.
     */
    method WithOption(option: string, value: Long) returns (self: DelayedAcoustic)
      modifies delay
      ensures self == this
      ensures delay.min == (if option == MinKey then value else old(delay.min))
      ensures delay.max == (if option == MaxKey then value else old(delay.max))
      ensures forall k :: Get(k) == if k == option && ContainsKey(k) then Some(value) else old(Get(k))
    {
      if option == MinKey {
        delay.min := value;
      }
      if option == MaxKey {
        delay.max := value;
      }
      return this;
    }
  }
}
