/** The weight of a basket, whose computation is also what forces every quantity to be positive. */
module ProductWeight {
  import opened Wrappers
  import opened OrderTypes

  /** Number.MAX_SAFE_INTEGER. */
  const MAX_SAFE := 0x1f_ffff_ffff_ffff

  /** An eligible basket line, with the price resolved for it. */
  datatype Line = Line(variant: VariantId, quantity: int, weightGram: int, unitPrice: int)

  predicate Usable(line: Line)
  {
    0 < line.weightGram <= MAX_SAFE && 0 < line.quantity <= MAX_SAFE
  }

  /** None stands for the thrown ProductWeightCalculationError. */
  function TotalWeight(lines: seq<Line>): Option<int>
  {
    if |lines| == 0 then Some(0)
    else
      match TotalWeight(lines[..|lines| - 1])
      case None => None
      case Some(total) =>
        var line := lines[|lines| - 1];
        if !Usable(line) then None
        else
          var lineWeight := line.weightGram * line.quantity;
          if lineWeight > MAX_SAFE || total + lineWeight > MAX_SAFE then None
          else Some(total + lineWeight)
  }

  ghost function WeightSum(lines: seq<Line>): int
  {
    if |lines| == 0 then 0
    else WeightSum(lines[..|lines| - 1]) + lines[|lines| - 1].weightGram * lines[|lines| - 1].quantity
  }

  /** The reduce throws exactly on an unusable line or on a total that is no safe integer. */
  lemma {:induction false} TotalWeightExact(lines: seq<Line>)
    ensures TotalWeight(lines).Some? <==>
            (forall i :: 0 <= i < |lines| ==> Usable(lines[i])) && WeightSum(lines) <= MAX_SAFE
    ensures TotalWeight(lines).Some? ==> TotalWeight(lines).value == WeightSum(lines)
    ensures (forall i :: 0 <= i < |lines| ==> Usable(lines[i])) ==> WeightSum(lines) >= 0
  {
    if |lines| > 0 {
      var front, last := lines[..|lines| - 1], lines[|lines| - 1];
      TotalWeightExact(front);
      assert forall i :: 0 <= i < |front| ==> front[i] == lines[i];
      if Usable(last) {
        assert last.weightGram * last.quantity > 0;
      }
      assert (forall i :: 0 <= i < |lines| ==> Usable(lines[i])) <==>
                (forall i :: 0 <= i < |front| ==> Usable(front[i])) && Usable(last);
    }
  }
}
