/** The custom activity that adds its summands, as Java `int`s, and stores the decimal string of the
    sum in the process instance context under a fixed variable name. */
module AddNumbers {
  import opened Runtime
  import opened JavaInt

  /** The variables of a process instance. */
  class ProcessInstanceContext {
    var variables: map<string, Value>

    constructor ()
      ensures variables == map[]
    {
      variables := map[];
    }

    method SetVariable(name: string, value: Value)
      modifies this`variables
      ensures variables == old(variables)[name := value]
    {
      variables := variables[name := value];
    }
  }

  /** The mathematical sum of the summands. */
  function Sum(s: seq<int32>): int {
    if s == [] then 0 else Sum(s[..|s| - 1]) + s[|s| - 1] as int
  }

  /** The value the activity stores: the decimal string of the sum wrapped to 32 bits. */
  function StoredValue(summands: seq<int32>): (v: Value)
    ensures v.Str?
  {
    Str(DecimalString(Wrap(Sum(summands)) as int))
  }

  class AddNumbersAndStoreActivity {
    const summands: array<int32>
    const resultVariableName: string

    constructor (variableName: string, summands: array<int32>)
      ensures this.summands == summands && resultVariableName == variableName
    {
      this.summands := summands;
      resultVariableName := variableName;
    }

    /** The accumulator loop: with `int` arithmetic each addition wraps modulo 2^32, so the result is
        the true sum wrapped once, and the true sum itself when that fits in an `int`. */
    method SumSummands() returns (result: int32)
      ensures result == Wrap(Sum(summands[..]))
      ensures InRange(Sum(summands[..])) ==> result as int == Sum(summands[..])
    {
      result := 0;
      for i := 0 to summands.Length
        invariant result == Wrap(Sum(summands[..i]))
      {
        assert summands[..i + 1][..i] == summands[..i];
        WrapAdd(Sum(summands[..i]), summands[i] as int);
        result := Wrap(result as int + summands[i] as int);
      }
      assert summands[..summands.Length] == summands[..];
    }

    /** Writes the decimal string of the sum into the context under `resultVariableName`, and nothing else. */
    method ExecuteIntern(context: ProcessInstanceContext)
      modifies context
      ensures context.variables == old(context.variables)[resultVariableName := StoredValue(summands[..])]
    {
      var result := SumSummands();
      context.SetVariable(resultVariableName, Str(DecimalString(result as int)));
    }
  }

  /** The stored string reads back as the wrapped sum. */
  lemma StoredValueParses(summands: seq<int32>)
    ensures ParseDecimal(StoredValue(summands).s) == Wrap(Sum(summands)) as int
  {
    DecimalStringRoundTrip(Wrap(Sum(summands)) as int);
  }

  /** With no summands the stored value is "0". */
  lemma NoSummandsStoreZero()
    ensures StoredValue([]) == Str("0")
  {
    assert Wrap(0) == 0;
  }

  /** Two summand lists store the same string exactly when their sums agree modulo 2^32. */
  lemma StoredValueEqualIff(s: seq<int32>, t: seq<int32>)
    ensures StoredValue(s) == StoredValue(t) <==> Wrap(Sum(s)) == Wrap(Sum(t))
  {
    if StoredValue(s) == StoredValue(t) {
      DecimalStringInjective(Wrap(Sum(s)) as int, Wrap(Sum(t)) as int);
    }
  }
}
