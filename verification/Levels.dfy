/** The levels permissions and grants are given at. */
module Levels {

  /** A level is a word; only these four have a meaning. */
  datatype Level = Unheld | ReadLevel | WriteLevel | DecideLevel | UnknownLevel(word: string) {

    function Rank(): (r: nat)
      ensures r <= 2
    {
      match this
      case ReadLevel => 1
      case WriteLevel => 2
      case DecideLevel => 2
      case _ => 0
    }

    predicate Includes(other: Level) {
      other == Unheld || (Rank() >= other.Rank() && other.Rank() > 0)
    }

    predicate Valid() {
      ReadLevel? || WriteLevel? || DecideLevel?
    }

    /** The two levels a plugin can be granted at. */
    predicate Grantable() {
      ReadLevel? || WriteLevel?
    }
  }

  /** Which level includes which. */
  lemma IncludesExactly(a: Level, b: Level)
    ensures a.Includes(b)
            <==> match b
                 case Unheld => true
                 case ReadLevel => a in {ReadLevel, WriteLevel, DecideLevel}
                 case WriteLevel => a in {WriteLevel, DecideLevel}
                 case DecideLevel => a in {WriteLevel, DecideLevel}
                 case UnknownLevel(_) => false
  {
  }

  /** Between levels that count, inclusion is the order of ranks. */
  lemma RankDecides(a: Level, b: Level)
    requires b.Valid()
    ensures a.Includes(b) <==> a.Rank() >= b.Rank()
  {
  }
}
