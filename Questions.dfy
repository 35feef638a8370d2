/** The question factory: it holds the loaded movie list and turns one movie,
    a random threshold and a random comparison into a yes/no question.
    The random draws, the movie loader's result and the image download are
    parameters. */
module Questions {
  import opened Models
  import opened Decimal

  /** One movie of the loaded list; its rating is text such as "8.7" or "". */
  datatype Movie = Movie(title: string, rating: string, resizedImageURL: string)

  /** What the movies loader hands back. */
  datatype MoviesResult = Loaded(items: seq<Movie>) | LoadFailed(error: string)

  /** What `Data(contentsOf:)` gives for an image URL. */
  datatype ImageFetch = Fetched(data: Bytes) | FetchFailed(error: string)

  /** The delegate call that `loadData` makes. */
  datatype LoadNotification = DidLoadDataFromServer | DidFailToLoadData(error: string)

  /** What one `requestNextQuestion` delivers to the delegate: nothing at all,
      a question, or the failure of the image download. The app reports that
      failure through the same `didFailToLoadData(with:)` call as a failed
      list load, so its delegate cannot tell the two apart; the separate
      constructor here only names where the error came from. */
  datatype Delivery =
    | NoDelivery
    | DidReceiveNextQuestion(question: QuizQuestion)
    | DidFailToLoadImage(error: string)

  // ---------------------------------------------------------------------------
  // Reading the rating text

  /** Position of the first '.', or |s| when there is none. */
  function DotIndex(s: string): (k: nat)
    ensures k <= |s|
    ensures k < |s| ==> s[k] == '.'
    ensures forall i :: 0 <= i < k ==> s[i] != '.'
  {
    if s == [] || s[0] == '.' then 0 else 1 + DotIndex(s[1..])
  }

  /** `DotIndex` is the one position that has a '.' and none before it. */
  lemma DotIndexAt(s: string, k: nat)
    requires k <= |s| && (k < |s| ==> s[k] == '.')
    requires forall i :: 0 <= i < k ==> s[i] != '.'
    ensures DotIndex(s) == k
  {
  }

  /** The value of the digits after a decimal point: moved back across the
      point by the number of digits, it is the digits read as a whole number;
      always below one. */
  function FractionValue(s: string): (r: real)
    requires AllDigits(s)
    ensures 0.0 <= r < 1.0
    ensures TimesPow10(r, |s|) == ParseNat(s) as real
  {
    if s == [] then 0.0
    else
      var rest := FractionValue(s[1..]);
      ShiftDigit(s, rest);
      (DigitValue(s[0]) as real + rest) / 10.0
  }

  /** Putting one more digit in front of a fraction keeps it the value of its digits. */
  lemma ShiftDigit(s: string, rest: real)
    requires |s| >= 1 && AllDigits(s)
    requires TimesPow10(rest, |s| - 1) == ParseNat(s[1..]) as real
    ensures TimesPow10((DigitValue(s[0]) as real + rest) / 10.0, |s|) == ParseNat(s) as real
  {
    var d := DigitValue(s[0]);
    ParseNatFront(s);
    TimesPow10Tenth(d as real + rest, |s|);
    TimesPow10Sum(d as real, rest, |s| - 1);
    TimesPow10Nat(d, |s| - 1);
  }

  /** Unsigned decimal digits, optionally with a point and more digits, at
      least one digit in all; anything else does not parse. */
  function ParseUnsigned(body: string): (r: Option<real>)
    ensures r.Some? ==> r.value >= 0.0
  {
    var k := DotIndex(body);
    var whole := body[..k];
    var fraction := if k < |body| then body[k + 1..] else [];
    if AllDigits(whole) && AllDigits(fraction) && |whole| + |fraction| > 0
    then Some(ParseNat(whole) as real + FractionValue(fraction))
    else None
  }

  /** A decimal number with an optional leading sign. */
  function ParseRating(s: string): (r: Option<real>)
    ensures s == [] ==> r == None
    ensures r.Some? && |s| > 0 && s[0] == '-' ==> r.value <= 0.0
    ensures r.Some? && (|s| == 0 || s[0] != '-') ==> r.value >= 0.0
  {
    if |s| > 0 && s[0] == '-' then
      match ParseUnsigned(s[1..])
      case Some(m) => Some(-m)
      case None => None
    else if |s| > 0 && s[0] == '+' then ParseUnsigned(s[1..])
    else ParseUnsigned(s)
  }

  /** The rating used for the comparison: the parsed text, or 0 when it does not parse. */
  function Rating(text: string): (r: real)
    ensures ParseRating(text).None? ==> r == 0.0
    ensures ParseRating(text).Some? ==> r == ParseRating(text).value
  {
    match ParseRating(text)
    case Some(r) => r
    case None => 0.0
  }

  /** Text split at its first point, with digits on both sides and at least
      one digit in all, reads as the whole part plus the fraction. */
  lemma ParseUnsignedSplit(body: string, k: nat)
    requires k < |body| && body[k] == '.' && |body| > 1
    requires AllDigits(body[..k]) && AllDigits(body[k + 1..])
    ensures ParseUnsigned(body).Some?
    ensures ParseUnsigned(body).value == ParseNat(body[..k]) as real + FractionValue(body[k + 1..])
  {
    assert forall i :: 0 <= i < k ==> body[i] == body[..k][i];
    DotIndexAt(body, k);
  }

  /** Digits, a point and digits (either side may be empty, not both) read
      as the whole part plus the fraction. */
  lemma ParseUnsignedPoint(whole: string, fraction: string)
    requires AllDigits(whole) && AllDigits(fraction) && |whole| + |fraction| > 0
    ensures ParseUnsigned(whole + "." + fraction).Some?
    ensures ParseUnsigned(whole + "." + fraction).value
              == ParseNat(whole) as real + FractionValue(fraction)
  {
    var s := whole + "." + fraction;
    assert s[..|whole|] == whole;
    assert s[|whole| + 1..] == fraction;
    ParseUnsignedSplit(s, |whole|);
  }

  /** Digits without a point read as a whole number. */
  lemma ParseUnsignedWhole(whole: string)
    requires AllDigits(whole) && |whole| > 0
    ensures ParseUnsigned(whole).Some?
    ensures ParseUnsigned(whole).value == ParseNat(whole) as real
  {
    DotIndexAt(whole, |whole|);
    assert whole[..|whole|] == whole;
  }

  /** A leading '+' changes nothing, a leading '-' negates, and text that
      does not start with a sign is read unsigned. */
  lemma ParseRatingSign(body: string)
    ensures ParseRating("+" + body) == ParseUnsigned(body)
    ensures ParseRating("-" + body) ==
              match ParseUnsigned(body) case Some(m) => Some(-m) case None => None
    ensures (|body| == 0 || (body[0] != '+' && body[0] != '-')) ==>
              ParseRating(body) == ParseUnsigned(body)
  {
    assert ("+" + body)[1..] == body;
    assert ("-" + body)[1..] == body;
  }

  /** The texts an unsigned rating may take: digits only, or digits, one
      point and digits, with at least one digit in all. */
  predicate IsDecimalText(body: string) {
    (|body| > 0 && AllDigits(body)) ||
    exists k :: 0 <= k < |body| && body[k] == '.' && |body| > 1
                && AllDigits(body[..k]) && AllDigits(body[k + 1..])
  }

  /** Exactly the decimal texts parse: any other text ("N/A", "8,7",
      "1.2.3", ".", "") is rejected. */
  lemma ParseUnsignedAccepts(body: string)
    ensures ParseUnsigned(body).Some? <==> IsDecimalText(body)
  {
    var k := DotIndex(body);
    if ParseUnsigned(body).Some? {
      if k == |body| {
        assert body[..k] == body;
      } else {
        assert body[k] == '.' && |body| > 1;
      }
    }
    if IsDecimalText(body) {
      if |body| > 0 && AllDigits(body) {
        ParseUnsignedWhole(body);
      } else {
        var j :| 0 <= j < |body| && body[j] == '.' && |body| > 1
                 && AllDigits(body[..j]) && AllDigits(body[j + 1..]);
        assert forall i :: 0 <= i < j ==> body[i] == body[..j][i];
        ParseUnsignedSplit(body, j);
      }
    }
  }

  /** The text after an optional leading sign. */
  function Unsigned(s: string): (body: string)
    ensures |s| > 0 && (s[0] == '+' || s[0] == '-') ==> body == s[1..]
    ensures (|s| == 0 || (s[0] != '+' && s[0] != '-')) ==> body == s
  {
    if |s| > 0 && (s[0] == '+' || s[0] == '-') then s[1..] else s
  }

  /** A rating parses exactly when, after an optional sign, it is decimal
      text; every other rating reads as 0. */
  lemma ParseRatingAccepts(s: string)
    ensures ParseRating(s).Some? <==> IsDecimalText(Unsigned(s))
    ensures !IsDecimalText(Unsigned(s)) ==> Rating(s) == 0.0
  {
    ParseUnsignedAccepts(Unsigned(s));
  }

  /** Words and a decimal comma are rejected by `Float` and read as 0. */
  lemma NonNumericRatingsReadZero()
    ensures Rating("N/A") == 0.0 && Rating("8,7") == 0.0
  {
    ParseRatingAccepts("N/A");
    ParseRatingAccepts("8,7");
  }

  /** A second point is rejected and reads as 0. */
  lemma TwoPointRatingReadsZero()
    ensures Rating("1.2.3") == 0.0
  {
    ParseRatingAccepts("1.2.3");
  }

  /** A point or a sign without digits is rejected and reads as 0. */
  lemma DigitlessRatingsReadZero()
    ensures Rating(".") == 0.0 && Rating("-") == 0.0
  {
    ParseRatingAccepts(".");
    ParseRatingAccepts("-");
  }

  /** A rating written `<whole>.<fraction>`, as the movie list gives it
      ("8.7", "8.75"), reads as its decimal value. */
  lemma ParseRatingDecimal(whole: nat, fraction: string)
    requires AllDigits(fraction)
    ensures ParseRating(NatToString(whole) + "." + fraction).Some?
    ensures ParseRating(NatToString(whole) + "." + fraction).value
              == whole as real + FractionValue(fraction)
  {
    var w := NatToString(whole);
    assert (w + "." + fraction)[0] == w[0];
    ParseRatingSign(w + "." + fraction);
    ParseUnsignedPoint(w, fraction);
    ParseNatToString(whole);
  }

  /** A rating written with a minus sign, `-<whole>.<fraction>` with digits
      on at least one side of the point, reads as the negated decimal value. */
  lemma NegativeRatingDecimal(whole: string, fraction: string)
    requires AllDigits(whole) && AllDigits(fraction) && |whole| + |fraction| > 0
    ensures ParseRating("-" + whole + "." + fraction).Some?
    ensures ParseRating("-" + whole + "." + fraction).value
              == -(ParseNat(whole) as real + FractionValue(fraction))
  {
    var s := "-" + whole + "." + fraction;
    assert s[0] == '-' && s[1..] == whole + "." + fraction;
    ParseUnsignedPoint(whole, fraction);
  }

  /** A whole-number rating ("8") reads as that number. */
  lemma ParseRatingWhole(whole: nat)
    ensures ParseRating(NatToString(whole)).Some?
    ensures ParseRating(NatToString(whole)).value == whole as real
  {
    ParseRatingSign(NatToString(whole));
    ParseUnsignedWhole(NatToString(whole));
    ParseNatToString(whole);
  }

  /** An empty rating, the way an unrated movie comes, does not parse and reads as 0. */
  lemma EmptyRatingIsZero()
    ensures ParseRating("") == None && Rating("") == 0.0
  {
  }

  // ---------------------------------------------------------------------------
  // Building one question

  /** The thresholds a question may compare against. */
  const Thresholds: seq<nat> := [7, 8, 9]

  /** The threshold picked by the random draw `choice` among `Thresholds`. */
  function Threshold(choice: nat): (t: nat)
    requires choice < |Thresholds|
    ensures t in {7, 8, 9}
  {
    Thresholds[choice]
  }

  const PromptHead: string := "Рейтинг этого фильма "
  const Greater: string := "больше"
  const Less: string := "меньше"
  const Than: string := " чем "

  function ComparisonWord(greater: bool): (word: string)
    ensures |word| == 6
    ensures word == Greater <==> greater
    ensures word == Less <==> !greater
  {
    if greater then Greater else Less
  }

  /** "Is the rating of this film greater/less than <threshold>?" */
  function Prompt(greater: bool, threshold: nat): (text: string)
    ensures |text| == |PromptHead| + 6 + |Than| + |NatToString(threshold)| + 1
    ensures text[..|PromptHead|] == PromptHead
    ensures text[|PromptHead|..|PromptHead| + 6] == ComparisonWord(greater)
    ensures text[|PromptHead| + 6..|PromptHead| + 6 + |Than|] == Than
    ensures text[|PromptHead| + 6 + |Than|..|text| - 1] == NatToString(threshold)
    ensures text[|text| - 1] == '?'
  {
    PromptHead + ComparisonWord(greater) + Than + NatToString(threshold) + "?"
  }

  /** The answer that makes the prompt true: a strict comparison each way. */
  function CorrectAnswer(rating: real, threshold: nat, greater: bool): (answer: bool)
    ensures rating == threshold as real ==> !answer
    ensures greater ==> (answer <==> rating > threshold as real)
    ensures !greater ==> (answer <==> rating < threshold as real)
  {
    if greater then rating > threshold as real else rating < threshold as real
  }

  /** The question built from a fetched image, a movie's rating text and the
      two random draws. */
  function MakeQuestion(image: Bytes, ratingText: string, choice: nat, greater: bool): (q: QuizQuestion)
    requires choice < |Thresholds|
    ensures q.image == image
    ensures q.text == Prompt(greater, Threshold(choice))
    ensures q.correctAnswer == CorrectAnswer(Rating(ratingText), Threshold(choice), greater)
  {
    var rating := Rating(ratingText);
    var threshold := Threshold(choice);
    QuizQuestion(image, Prompt(greater, threshold), CorrectAnswer(rating, threshold, greater))
  }

  /** A movie whose rating does not parse counts as rated 0, below every
      threshold: "greater" is answered no and "less" is answered yes. */
  lemma UnparsedRatingAnswer(image: Bytes, ratingText: string, choice: nat, greater: bool)
    requires choice < |Thresholds|
    requires ParseRating(ratingText) == None
    ensures MakeQuestion(image, ratingText, choice, greater).correctAnswer == !greater
  {
  }

  /** An inverse of `Prompt`: the comparison and the threshold a prompt states. */
  function ParsePrompt(text: string): Option<(bool, nat)> {
    if |text| < |PromptHead| + 6 + |Than| + 2 || text[..|PromptHead|] != PromptHead then None
    else
      var rest := text[|PromptHead|..];
      var word := rest[..6];
      var tail := rest[6..];
      var digits := tail[|Than|..|tail| - 1];
      if (word == Greater || word == Less) && tail[..|Than|] == Than && tail[|tail| - 1] == '?'
         && AllDigits(digits)
      then Some((word == Greater, ParseNat(digits)))
      else None
  }

  /** The prompt states exactly the comparison ("больше" when `greater`,
      "меньше" otherwise) and the threshold it was built with. */
  lemma {:induction false} PromptRoundTrip(greater: bool, threshold: nat)
    ensures ParsePrompt(Prompt(greater, threshold)) == Some((greater, threshold))
  {
    var text := Prompt(greater, threshold);
    var h, t := |PromptHead|, |Than|;
    var rest := text[h..];
    var tail := rest[6..];
    assert rest[..6] == text[h..h + 6];
    assert tail[..t] == text[h + 6..h + 6 + t];
    assert tail[t..|tail| - 1] == text[h + 6 + t..|text| - 1];
    assert tail[|tail| - 1] == text[|text| - 1];
    assert Greater != Less;
    ParseNatToString(threshold);
  }

  // ---------------------------------------------------------------------------
  // The factory

  class QuestionFactory {
    var movies: seq<Movie>

    /** A new factory has no movies until `LoadData` succeeds. */
    constructor ()
      ensures movies == []
    {
      movies := [];
    }

    /** A successful load replaces the movie list and announces it; a failed
        load keeps the list and reports the error. */
    method LoadData(result: MoviesResult) returns (notification: LoadNotification)
      modifies this
      ensures result.Loaded? ==> movies == result.items && notification == DidLoadDataFromServer
      ensures result.LoadFailed? ==> movies == old(movies) && notification == DidFailToLoadData(result.error)
    {
      match result
      case Loaded(items) =>
        movies := items;
        notification := DidLoadDataFromServer;
      case LoadFailed(error) =>
        notification := DidFailToLoadData(error);
    }

    /** One request for a question. `draw` is the index `randomElement()` took
        from `0..<movies.count` (there is none when the list is empty, and the
        index then defaults to 0); `fetch` downloads an image; `choice` and
        `greater` are the threshold draw and `Bool.random()`.
        With no movies nothing is delivered; otherwise the chosen movie's image
        is fetched, and a failed fetch is reported instead of a question. */
    function RequestNextQuestion(draw: nat, fetch: string -> ImageFetch, choice: nat, greater: bool)
      : (d: Delivery)
      reads this
      requires movies != [] ==> draw < |movies|
      requires choice < |Thresholds|
      ensures d == NoDelivery <==> movies == []
      ensures d.DidFailToLoadImage? <==> movies != [] && fetch(movies[draw].resizedImageURL).FetchFailed?
      ensures d.DidFailToLoadImage? ==> fetch(movies[draw].resizedImageURL) == FetchFailed(d.error)
      ensures d.DidReceiveNextQuestion? ==>
                var movie := movies[draw];
                fetch(movie.resizedImageURL) == Fetched(d.question.image) &&
                d.question == MakeQuestion(d.question.image, movie.rating, choice, greater)
    {
      var index := if movies == [] then 0 else draw;
      if index >= |movies| then NoDelivery
      else
        var movie := movies[index];
        match fetch(movie.resizedImageURL)
        case FetchFailed(error) => DidFailToLoadImage(error)
        case Fetched(imageData) => DidReceiveNextQuestion(MakeQuestion(imageData, movie.rating, choice, greater))
    }
  }
}
