/**
 * TopicRecommendationService: ask the chat model for conversation topics
 * written one per line as "keyword: topic", and keep every line that has a
 * colon, cut at its first colon with both halves trimmed. A null answer
 * makes the parsing throw, and the three fixed topics are returned instead.
 */
module Topics {
  import opened Wrappers
  import opened Text
  import opened OpenAi

  /** TopicRecommendationResponse. */
  datatype TopicRecommendation = TopicRecommendation(mainKeyword: string, subTopic: string)

  /** The list returned when parsing throws. */
  const DEFAULT_TOPICS: seq<TopicRecommendation> := [
    TopicRecommendation("뉴스", "오늘의 주요 기사"),
    TopicRecommendation("건강", "가벼운 스트레칭"),
    TopicRecommendation("가족", "자녀 출산 고민")
  ]

  const TOPIC_PROMPT: string :=
    "당신은 대화 주제를 추천하는 AI입니다.\n"
    + "사용자가 흥미를 느낄만한 일상적인 대화 주제 3개를 추천해주세요.\n"
    + "각 주제는 '주요 키워드: 세부 주제' 형식으로 한 줄씩 작성해야 합니다.\n"
    + "\n"
    + "세부 주제 같은 경우 최소 10자 최대 15자로 제한 해야해.\n"
    + "\n"
    + "주요 키워드 예시: 음악, 여행, 운동, 독서, 패션, 반려동물\n"
    + "\n"
    + "출력예시:\n"
    + "가족: 최근에 가족과 있었던 재미있는 일\n"
    + "커리어: 현재 직무에서 느끼는 만족감과 어려움\n"
    + "여행: 지금까지 갔던 여행 중 가장 기억에 남는 곳\n"

  /**
   * One line: cut at its first colon, both halves trimmed; a line without a
   * colon gives null. ParseLineIsSplit shows this is `split(":", 2)` kept
   * only with two parts.
   */
  function ParseLine(line: string): Option<TopicRecommendation> {
    match IndexOf(line, ":")
    case None => None
    case Some(i) => Some(TopicRecommendation(Trim(line[..i]), Trim(line[i + 1..])))
  }

  /** `line.split(":", 2)` has two parts exactly when the line has a colon, and they are the text around the first one. */
  lemma ParseLineIsSplit(line: string)
    ensures |SplitN(line, ":", 2)| == 2 <==> Contains(line, ":")
    ensures |SplitN(line, ":", 2)| == 2 ==>
      ParseLine(line) == Some(TopicRecommendation(Trim(SplitN(line, ":", 2)[0]), Trim(SplitN(line, ":", 2)[1])))
    ensures |SplitN(line, ":", 2)| != 2 ==> ParseLine(line) == None
  {
    match IndexOf(line, ":")
    case None =>
      assert SplitN(line, ":", 2) == [line];
    case Some(i) =>
      assert SplitN(line[i + 1..], ":", 1) == [line[i + 1..]];
      assert SplitN(line, ":", 2) == [line[..i], line[i + 1..]];
  }

  /** Each line parsed on its own (the stream's map step). */
  function ParseEach(lines: seq<string>): (r: seq<Option<TopicRecommendation>>)
    ensures |r| == |lines|
    ensures forall i :: 0 <= i < |lines| ==> r[i] == ParseLine(lines[i])
  {
    if lines == [] then [] else [ParseLine(lines[0])] + ParseEach(lines[1..])
  }

  /** The present values, in order (the stream's nonNull filter). */
  function NonNull<T>(xs: seq<Option<T>>): (r: seq<T>)
    ensures |r| <= |xs|
  {
    if xs == [] then []
    else match xs[0]
      case Some(t) => [t] + NonNull(xs[1..])
      case None => NonNull(xs[1..])
  }

  /** The topics of the lines that parse, in line order. */
  function ParseLines(lines: seq<string>): (r: seq<TopicRecommendation>)
    ensures |r| <= |lines|
  {
    NonNull(ParseEach(lines))
  }

  /** The answer parsed line by line; a null answer makes `split` throw and gives the defaults. */
  function ParseTopics(rawResponse: Option<string>): seq<TopicRecommendation> {
    match rawResponse
    case None => DEFAULT_TOPICS
    case Some(s) => ParseLines(Split(s, "\n"))
  }

  /** recommendTopics: the model gets no messages beyond the custom system prompt. */
  function RecommendTopics(model: ChatModel): (r: seq<TopicRecommendation>)
    ensures GetChatResponse([], Some(TOPIC_PROMPT), model).None? ==> r == DEFAULT_TOPICS
  {
    ParseTopics(GetChatResponse([], Some(TOPIC_PROMPT), model))
  }

  /** The filter keeps order: the values of two lists are the values of each, in turn. */
  lemma {:induction false} NonNullAppend<T>(xs: seq<Option<T>>, ys: seq<Option<T>>)
    ensures NonNull(xs + ys) == NonNull(xs) + NonNull(ys)
  {
    if xs != [] {
      assert (xs + ys)[0] == xs[0];
      assert (xs + ys)[1..] == xs[1..] + ys;
      NonNullAppend(xs[1..], ys);
      match xs[0]
      case Some(t) =>
        assert NonNull(xs + ys) == [t] + NonNull(xs[1..] + ys);
        assert NonNull(xs) == [t] + NonNull(xs[1..]);
      case None =>
    } else {
      assert xs + ys == ys;
    }
  }

  /** Parsing keeps line order: the topics of two blocks of lines are the topics of each, in turn. */
  lemma ParseLinesAppend(a: seq<string>, b: seq<string>)
    ensures ParseLines(a + b) == ParseLines(a) + ParseLines(b)
  {
    ParseEachAppend(a, b);
    NonNullAppend(ParseEach(a), ParseEach(b));
  }

  /** The map step works line by line, so it distributes over concatenation. */
  lemma ParseEachAppend(a: seq<string>, b: seq<string>)
    ensures ParseEach(a + b) == ParseEach(a) + ParseEach(b)
  {
    var pa, pb := ParseEach(a), ParseEach(b);
    var l, r := ParseEach(a + b), pa + pb;
    assert |l| == |r|;
    forall i | 0 <= i < |l|
      ensures l[i] == r[i]
    {
      var line := (a + b)[i];
      assert l[i] == ParseLine(line);
      if i < |a| {
        assert line == a[i] && r[i] == pa[i];
      } else {
        assert line == b[i - |a|] && r[i] == pb[i - |a|];
      }
    }
  }

  /** Every value the filter keeps is present at some position, and a list of nulls gives nothing. */
  lemma {:induction false} NonNullFrom<T>(xs: seq<Option<T>>)
    ensures forall t :: t in NonNull(xs) ==> exists k :: 0 <= k < |xs| && xs[k] == Some(t)
    ensures (forall k :: 0 <= k < |xs| ==> xs[k].None?) ==> NonNull(xs) == []
  {
    if xs != [] {
      NonNullFrom(xs[1..]);
      forall t | t in NonNull(xs)
        ensures exists k :: 0 <= k < |xs| && xs[k] == Some(t)
      {
        if xs[0] != Some(t) {
          var k :| 0 <= k < |xs[1..]| && xs[1..][k] == Some(t);
          assert xs[k + 1] == Some(t);
        }
      }
    }
  }

  /** Every topic comes from some line, and lines without a colon give no topic. */
  lemma ParseLinesFromLines(lines: seq<string>)
    ensures forall t :: t in ParseLines(lines) ==> exists k :: 0 <= k < |lines| && ParseLine(lines[k]) == Some(t)
    ensures (forall k :: 0 <= k < |lines| ==> !Contains(lines[k], ":")) ==> ParseLines(lines) == []
  {
    NonNullFrom(ParseEach(lines));
  }

  /** A string without the char c does not contain it. */
  lemma NoCharNotContained(x: string, c: char)
    requires c !in x
    ensures !Contains(x, [c])
  {
    forall k | 0 <= k
      ensures !OccursAt(x, [c], k)
    {
      if k + 1 <= |x| {
        assert x[k..k + 1][0] == x[k];
      }
    }
    ContainsIff(x, [c]);
  }

  /** The line a topic is written as. */
  function RenderLine(t: TopicRecommendation): string {
    t.mainKeyword + ": " + t.subTopic
  }

  function RenderLines(ts: seq<TopicRecommendation>): (r: seq<string>)
    ensures |r| == |ts|
    ensures forall i :: 0 <= i < |ts| ==> r[i] == RenderLine(ts[i])
  {
    if ts == [] then [] else [RenderLine(ts[0])] + RenderLines(ts[1..])
  }

  /** A topic that can be written on one line and read back: trimmed halves, no line break, no colon in the keyword. */
  predicate Writable(t: TopicRecommendation) {
    IsTrimmed(t.mainKeyword) && IsTrimmed(t.subTopic)
    && (forall i :: 0 <= i < |t.mainKeyword| ==> t.mainKeyword[i] != ':' && t.mainKeyword[i] != '\n')
    && (forall i :: 0 <= i < |t.subTopic| ==> t.subTopic[i] != '\n')
  }

  /** One written line parses back to its topic. */
  lemma ParseRenderedLine(t: TopicRecommendation)
    requires Writable(t)
    ensures ParseLine(RenderLine(t)) == Some(t)
  {
    var k := t.mainKeyword;
    var rest := " " + t.subTopic;
    var line := k + ":" + rest;
    assert RenderLine(t) == line;
    assert ':' !in k;
    NoCharCutsCleanly(k, ':');
    FirstOccurrenceAfterCleanPiece(k, ":", rest);
    assert line[..|k|] == k;
    assert line[|k| + 1..] == rest;
    TrimOfTrimmed(k);
    TrimAfterSpace(t.subTopic);
  }

  /** A written line holds no line break. */
  lemma RenderedLineHasNoBreak(t: TopicRecommendation)
    requires Writable(t)
    ensures '\n' !in RenderLine(t)
  {
    var line := RenderLine(t);
    forall i | 0 <= i < |line|
      ensures line[i] != '\n'
    {
      if i < |t.mainKeyword| {
        assert line[i] == t.mainKeyword[i];
      } else if i >= |t.mainKeyword| + 2 {
        assert line[i] == t.subTopic[i - |t.mainKeyword| - 2];
      }
    }
  }

  /** Written lines parse back one topic each. */
  lemma {:induction false} ParseRenderedLines(ts: seq<TopicRecommendation>)
    requires forall i :: 0 <= i < |ts| ==> Writable(ts[i])
    ensures ParseLines(RenderLines(ts)) == ts
  {
    if ts != [] {
      var lines := RenderLines(ts);
      ParseRenderedLine(ts[0]);
      ParseRenderedLines(ts[1..]);
      assert lines == [lines[0]] + lines[1..];
      assert lines[1..] == RenderLines(ts[1..]);
      ParseLinesAppend([lines[0]], lines[1..]);
      assert ParseEach([lines[0]]) == [Some(ts[0])];
    }
  }

  /** Lines without line breaks, the last one not empty, joined by line breaks: each is parsed as it was. */
  lemma ParseJoinedLines(lines: seq<string>)
    requires lines != [] && lines[|lines| - 1] != ""
    requires forall i :: 0 <= i < |lines| ==> '\n' !in lines[i]
    ensures ParseTopics(Some(Join(lines, "\n"))) == ParseLines(lines)
  {
    forall i | 0 <= i < |lines|
      ensures CutsCleanly(lines[i], "\n")
    {
      NoCharCutsCleanly(lines[i], '\n');
    }
    SplitJoin(lines, "\n");
  }

  /**
   * Round trip: topics written one per line, joined by line breaks, are
   * recommended back exactly, in order.
   */
  lemma TopicsRoundTrip(ts: seq<TopicRecommendation>)
    requires ts != []
    requires forall i :: 0 <= i < |ts| ==> Writable(ts[i])
    ensures ParseTopics(Some(Join(RenderLines(ts), "\n"))) == ts
  {
    RenderedLinesAreLines(ts);
    ParseRenderedLines(ts);
  }

  /** Written topics give lines without line breaks, the last one not empty, so each is parsed as written. */
  lemma RenderedLinesAreLines(ts: seq<TopicRecommendation>)
    requires ts != []
    requires forall i :: 0 <= i < |ts| ==> Writable(ts[i])
    ensures ParseTopics(Some(Join(RenderLines(ts), "\n"))) == ParseLines(RenderLines(ts))
  {
    var lines := RenderLines(ts);
    forall i | 0 <= i < |lines|
      ensures '\n' !in lines[i]
    {
      RenderedLineHasNoBreak(ts[i]);
    }
    assert |RenderLine(ts[|ts| - 1])| >= 2;
    ParseJoinedLines(lines);
  }

  /** The fallback apology, in three pieces short enough to read one character at a time. */
  const APOLOGY_PIECES: seq<string> := ["죄송합니다. 시스템에 오류가 ", "발생하여 답변을 드릴 수 없습니다. ", "잠시 후 다시 시도해주세요."]

  lemma ApologyIsItsPieces()
    ensures APOLOGY == APOLOGY_PIECES[0] + APOLOGY_PIECES[1] + APOLOGY_PIECES[2]
  {
  }

  lemma ApologyPiecesArePlain()
    ensures forall k :: 0 <= k < 3 ==> ':' !in APOLOGY_PIECES[k] && '\n' !in APOLOGY_PIECES[k]
  {
    assert ':' !in APOLOGY_PIECES[0] && '\n' !in APOLOGY_PIECES[0];
    assert ':' !in APOLOGY_PIECES[1] && '\n' !in APOLOGY_PIECES[1];
    assert ':' !in APOLOGY_PIECES[2] && '\n' !in APOLOGY_PIECES[2];
  }

  /** The fallback apology holds neither a colon nor a line break. */
  lemma ApologyIsOneLineWithoutColon()
    ensures ':' !in APOLOGY && '\n' !in APOLOGY
  {
    ApologyIsItsPieces();
    ApologyPiecesArePlain();
  }

  /** When the model throws, its fallback apology has no colon, so no topic at all is recommended. */
  lemma ApologyGivesNoTopics()
    ensures ParseTopics(Some(APOLOGY)) == []
  {
    ApologyIsOneLineWithoutColon();
    NoCharNotContained(APOLOGY, '\n');
    NoCharNotContained(APOLOGY, ':');
    assert Split(APOLOGY, "\n") == [APOLOGY];
  }
}
