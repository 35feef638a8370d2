/** The statistics store: lifetime correct and total answer counts, the number
    of games played and the best game, each kept under its own key of a
    key/value store (in the app, `UserDefaults.standard`), and the lifetime
    accuracy derived from them. */
module Statistics {

  /** One finished game; `date` is an opaque timestamp. */
  datatype GameRecord = GameRecord(correct: int, total: int, date: int)

  /** The four keys the store writes. */
  datatype Key = Correct | Total | BestGame | GamesCount

  /** What a key can hold: an integer, or an encoded game record. */
  datatype Stored = IntegerValue(value: int) | RecordData(record: GameRecord)

  /** The contents of the key/value store. */
  type Defaults = map<Key, Stored>

  /** `integer(forKey:)`: the integer under `key`, and 0 when there is none. */
  function IntegerFor(defaults: Defaults, key: Key): (v: int)
    ensures key in defaults && defaults[key].IntegerValue? ==> v == defaults[key].value
    ensures (key !in defaults || !defaults[key].IntegerValue?) ==> v == 0
  {
    if key in defaults && defaults[key].IntegerValue? then defaults[key].value else 0
  }

  /** The decoded best game, and a zero record dated `now` when nothing valid is stored. */
  function RecordFor(defaults: Defaults, now: int): (r: GameRecord)
    ensures BestGame in defaults && defaults[BestGame].RecordData? ==> r == defaults[BestGame].record
    ensures (BestGame !in defaults || !defaults[BestGame].RecordData?) ==> r == GameRecord(0, 0, now)
  {
    if BestGame in defaults && defaults[BestGame].RecordData? then defaults[BestGame].record
    else GameRecord(0, 0, now)
  }

  /** `correct / total * 100`, with no guard of its own against a zero total. */
  function Accuracy(correct: int, total: int): (percent: real)
    requires total != 0
    ensures percent * total as real == correct as real * 100.0
  {
    correct as real / total as real * 100.0
  }

  /** As long as no more answers are correct than were given, the accuracy is a percentage. */
  lemma AccuracyIsPercentage(correct: int, total: int)
    requires total != 0
    ensures 0 <= correct <= total ==> 0.0 <= Accuracy(correct, total) <= 100.0
  {
  }

  class StatisticService {
    /** Whether the first game beats the second; the order itself is not part of this model. */
    const isBetterThan: (GameRecord, GameRecord) -> bool
    var defaults: Defaults

    /** A service over the store as earlier sessions left it. */
    constructor (isBetterThan: (GameRecord, GameRecord) -> bool, defaults: Defaults)
      ensures this.isBetterThan == isBetterThan && this.defaults == defaults
    {
      this.isBetterThan := isBetterThan;
      this.defaults := defaults;
    }

    function CorrectCount(): (v: int)
      reads this
      ensures Correct !in defaults ==> v == 0
    {
      IntegerFor(defaults, Correct)
    }

    function TotalCount(): (v: int)
      reads this
      ensures Total !in defaults ==> v == 0
    {
      IntegerFor(defaults, Total)
    }

    function GamesPlayed(): (v: int)
      reads this
      ensures GamesCount !in defaults ==> v == 0
    {
      IntegerFor(defaults, GamesCount)
    }

    function BestGameRecord(now: int): (r: GameRecord)
      reads this
      ensures BestGame !in defaults ==> r.correct == 0 && r.total == 0
    {
      RecordFor(defaults, now)
    }

    /** No more answers counted correct than answered: what keeps the accuracy a percentage. */
    predicate ScoresConsistent()
      reads this
    {
      0 <= CorrectCount() <= TotalCount()
    }

    method SetCorrect(v: int)
      modifies this
      ensures defaults == old(defaults)[Correct := IntegerValue(v)]
      ensures CorrectCount() == v
      ensures TotalCount() == old(TotalCount()) && GamesPlayed() == old(GamesPlayed())
      ensures forall now :: BestGameRecord(now) == old(BestGameRecord(now))
    {
      defaults := defaults[Correct := IntegerValue(v)];
    }

    method SetTotal(v: int)
      modifies this
      ensures defaults == old(defaults)[Total := IntegerValue(v)]
      ensures TotalCount() == v
      ensures CorrectCount() == old(CorrectCount()) && GamesPlayed() == old(GamesPlayed())
      ensures forall now :: BestGameRecord(now) == old(BestGameRecord(now))
    {
      defaults := defaults[Total := IntegerValue(v)];
    }

    method SetGamesPlayed(v: int)
      modifies this
      ensures defaults == old(defaults)[GamesCount := IntegerValue(v)]
      ensures GamesPlayed() == v
      ensures CorrectCount() == old(CorrectCount()) && TotalCount() == old(TotalCount())
      ensures forall now :: BestGameRecord(now) == old(BestGameRecord(now))
    {
      defaults := defaults[GamesCount := IntegerValue(v)];
    }

    /** Stores the encoded record; the encoding failure that skips the write is not modelled. */
    method SetBestGame(record: GameRecord)
      modifies this
      ensures defaults == old(defaults)[BestGame := RecordData(record)]
      ensures forall now :: BestGameRecord(now) == record
      ensures CorrectCount() == old(CorrectCount()) && TotalCount() == old(TotalCount())
      ensures GamesPlayed() == old(GamesPlayed())
    {
      defaults := defaults[BestGame := RecordData(record)];
    }

    /** The lifetime percentage of correct answers. */
    function TotalAccuracy(): (percent: real)
      reads this
      requires TotalCount() != 0
      ensures percent * TotalCount() as real == CorrectCount() as real * 100.0
      ensures ScoresConsistent() ==> 0.0 <= percent <= 100.0
    {
      AccuracyIsPercentage(CorrectCount(), TotalCount());
      Accuracy(CorrectCount(), TotalCount())
    }

    /** Records a finished game of `count` correct answers out of `amount`,
        played at `now`: both lifetime counts grow by the game's numbers, one
        more game is counted, and the game becomes the best one unless the
        stored best is better than it. */
    method Store(count: int, amount: int, now: int)
      modifies this
      ensures CorrectCount() == old(CorrectCount()) + count
      ensures TotalCount() == old(TotalCount()) + amount
      ensures GamesPlayed() == old(GamesPlayed()) + 1
      ensures forall t :: BestGameRecord(t) ==
                if isBetterThan(old(BestGameRecord(now)), GameRecord(count, amount, now))
                then old(BestGameRecord(t))
                else GameRecord(count, amount, now)
      ensures old(ScoresConsistent()) && 0 <= count <= amount ==> ScoresConsistent()
    {
      var newGame := GameRecord(count, amount, now);
      if !isBetterThan(BestGameRecord(now), newGame) {
        SetBestGame(newGame);
      }
      SetCorrect(CorrectCount() + count);
      SetTotal(TotalCount() + amount);
      SetGamesPlayed(GamesPlayed() + 1);
    }
  }

  /** A first game of 7 correct out of 10 on an empty store gives a lifetime
      accuracy of 70, whatever the best-game order. */
  method FirstGameAccuracy(isBetterThan: (GameRecord, GameRecord) -> bool, now: int)
    returns (percent: real, games: int)
    ensures percent == 70.0 && games == 1
  {
    var service := new StatisticService(isBetterThan, map[]);
    service.Store(7, 10, now);
    percent := service.TotalAccuracy();
    games := service.GamesPlayed();
  }
}
