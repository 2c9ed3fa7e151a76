/** Quiz authoring: `POST /upload-quiz` inserts a quiz, its questions and its
    tag links in one transaction, creating tags it has not seen before;
    `GET /tags-option` lists the tag names offered to authors. */
module QuizUpload {
  import opened Common
  import opened Query
  import opened Store
  import Rooms

  /** `QuizQuestionSchema`. */
  datatype QuestionInput = QuestionInput(question: string, questionIndex: int, options: seq<string>,
                                         correctOption: int, points: int, duration: int)

  /** `QuizSchema`. */
  datatype QuizInput = QuizInput(title: string, description: Option<string>, coverPhoto: Option<string>,
                                 isPublished: Option<bool>, questions: seq<QuestionInput>, tags: seq<string>)

  /** The row `q` is stored as, under quiz `quizId` and id `id`. */
  function QuestionRowOf(q: QuestionInput, quizId: Id, id: Id): (r: QuestionRow)
    ensures r.id == id && r.quizId == quizId
    ensures r.question == q.question && r.questionIndex == q.questionIndex && r.options == q.options
    ensures r.correctOption == q.correctOption && r.points == q.points && r.duration == q.duration
  {
    QuestionRow(id, quizId, q.question, q.questionIndex, q.options, q.correctOption, q.points, q.duration)
  }

  /** `after` is `before` followed by one row per element of `qs`, in list
      order, under quiz `quizId`, with ids handed out from `next`. */
  ghost predicate QuestionsInserted(before: seq<QuestionRow>, after: seq<QuestionRow>, next: nat,
                                    quizId: Id, qs: seq<QuestionInput>) {
    && |after| == |before| + |qs| && after[..|before|] == before
    && forall i :: 0 <= i < |qs| ==> after[|before| + i] == QuestionRowOf(qs[i], quizId, next + i)
  }

  /** An uploaded question is the one the answer handlers look up: under a
      quiz id no earlier question row carries, the first input with a given
      ordinal is the row `Rooms.QuestionAt` finds for that ordinal, so the
      correct option the answer checks compare against is the uploaded one. */
  lemma UploadedQuestionIsLookedUp(before: seq<QuestionRow>, after: seq<QuestionRow>, next: nat,
                                   quizId: Id, qs: seq<QuestionInput>, i: nat)
    requires QuestionsInserted(before, after, next, quizId, qs)
    requires forall k :: 0 <= k < |before| ==> before[k].quizId != quizId
    requires i < |qs| && forall j :: 0 <= j < i ==> qs[j].questionIndex != qs[i].questionIndex
    ensures Rooms.QuestionAt(after, quizId, qs[i].questionIndex) == Some(QuestionRowOf(qs[i], quizId, next + i))
    ensures Rooms.QuestionAt(after, quizId, qs[i].questionIndex).value.correctOption == qs[i].correctOption
  {
    var p := (x: QuestionRow) => x.questionIndex == qs[i].questionIndex && x.quizId == quizId;
    var n := |before| + i;
    forall k | 0 <= k < n ensures !p(after[k]) {
      if k < |before| {
        assert after[k] == after[..|before|][k] == before[k];
      } else {
        assert after[k] == QuestionRowOf(qs[k - |before|], quizId, next + k - |before|);
      }
    }
    assert p(after[n]);
    assert FirstIndex(after, p) == n;
  }

  /** The loop over `quiz_data.questions`. */
  method InsertQuestions(table: seq<QuestionRow>, next: nat, quizId: Id, qs: seq<QuestionInput>)
    returns (table': seq<QuestionRow>, next': nat)
    requires QuestionIdsOk(table, next)
    ensures QuestionIdsOk(table', next') && next' == next + |qs|
    ensures QuestionsInserted(table, table', next, quizId, qs)
  {
    table', next' := table, next;
    var i := 0;
    while i < |qs|
      invariant 0 <= i <= |qs| && next' == next + i
      invariant QuestionIdsOk(table', next')
      invariant QuestionsInserted(table, table', next, quizId, qs[..i])
    {
      var row := QuestionRowOf(qs[i], quizId, next');
      QuestionAppendKeepsIds(table', next', row);
      table' := table' + [row];
      next' := next' + 1;
      i := i + 1;
    }
    assert qs[..i] == qs;
  }

  /** `SELECT id FROM tags WHERE name = %s`. */
  function TagByName(tags: seq<TagRow>, name: string): (r: Option<TagRow>)
    ensures r.None? <==> forall k :: 0 <= k < |tags| ==> tags[k].name != name
    ensures r.Some? ==> r.value in tags && r.value.name == name
  {
    FirstWhere(tags, (t: TagRow) => t.name == name)
  }

  /** Appending a tag leaves the lookup of every name already present as it
      was and makes the new name findable. */
  lemma {:induction false} TagByNameAppend(tags: seq<TagRow>, row: TagRow, name: string)
    ensures TagByName(tags + [row], name) ==
      if TagByName(tags, name).Some? then TagByName(tags, name)
      else if row.name == name then Some(row) else None
  {
    var p := (t: TagRow) => t.name == name;
    if tags == [] {
      assert tags + [row] == [row];
    } else if tags[0].name == name {
      assert (tags + [row])[0] == tags[0];
    } else {
      assert (tags + [row])[1..] == tags[1..] + [row];
      TagByNameAppend(tags[1..], row, name);
      assert TagByName(tags, name) == TagByName(tags[1..], name) by {
        assert FirstWhere(tags, p) == FirstWhere(tags[1..], p) by {
          FirstWhereSkip(tags, p);
        }
      }
      assert TagByName(tags + [row], name) == TagByName((tags + [row])[1..], name) by {
        FirstWhereSkip(tags + [row], p);
      }
    }
  }

  /** A lookup skips a first row that does not match. */
  lemma FirstWhereSkip<T>(s: seq<T>, p: T -> bool)
    requires s != [] && !p(s[0])
    ensures FirstWhere(s, p) == FirstWhere(s[1..], p)
  {
    assert FirstIndex(s, p) == FirstIndex(s[1..], p) + 1;
  }

  /** After the tag loop: the old tags are kept, each new tag row carries a
      requested name, and link `k` ties the quiz to the tag named `tags[k]`;
      a name already present keeps the tag row it had. */
  ghost predicate TagsLinked(before: seq<TagRow>, after: seq<TagRow>, quizId: Id, names: seq<string>,
                             links: seq<QuizTagRow>) {
    && |before| <= |after| && after[..|before|] == before
    && (forall i :: |before| <= i < |after| ==> after[i].name in names)
    && (forall n :: TagByName(before, n).Some? ==> TagByName(after, n) == TagByName(before, n))
    && |links| == |names|
    && forall k :: 0 <= k < |names| ==>
         TagByName(after, names[k]).Some? && links[k] == QuizTagRow(quizId, TagByName(after, names[k]).value.id)
  }

  /** The loop over `quiz_data.tags`: reuse the tag of that name or insert
      one, then link it to the quiz; every entry, repeats included, gives one
      link. */
  method LinkTags(tags: seq<TagRow>, next: nat, quizId: Id, names: seq<string>)
    returns (tags': seq<TagRow>, next': nat, links: seq<QuizTagRow>)
    requires TagIdsOk(tags, next) && UniqueTagNames(tags)
    ensures TagIdsOk(tags', next') && UniqueTagNames(tags')
    ensures TagsLinked(tags, tags', quizId, names, links)
  {
    tags', next', links := tags, next, [];
    var i := 0;
    while i < |names|
      invariant 0 <= i <= |names|
      invariant TagIdsOk(tags', next') && UniqueTagNames(tags')
      invariant TagsLinked(tags, tags', quizId, names[..i], links)
    {
      var existing := TagByName(tags', names[i]);
      if existing.Some? {
        LinkExistingTag(tags, tags', quizId, names, i, links);
        links := links + [QuizTagRow(quizId, existing.value.id)];
      } else {
        var row := TagRow(next', names[i]);
        TagAppendKeepsIds(tags', next', row);
        TagAppendKeepsUnique(tags', row);
        LinkNewTag(tags, tags', row, quizId, names, i, links);
        tags' := tags' + [row];
        next' := next' + 1;
        links := links + [QuizTagRow(quizId, row.id)];
      }
      i := i + 1;
    }
    assert names[..i] == names;
  }

  /** A tag loop step for a name that already has a tag. */
  lemma LinkExistingTag(before: seq<TagRow>, tags: seq<TagRow>, quizId: Id, names: seq<string>, i: nat,
                        links: seq<QuizTagRow>)
    requires i < |names| && TagByName(tags, names[i]).Some?
    requires TagsLinked(before, tags, quizId, names[..i], links)
    ensures TagsLinked(before, tags, quizId, names[..i + 1], links + [QuizTagRow(quizId, TagByName(tags, names[i]).value.id)])
  {
    assert names[..i + 1] == names[..i] + [names[i]];
    forall j | |before| <= j < |tags| ensures tags[j].name in names[..i + 1] {
      assert tags[j].name in names[..i];
    }
  }

  /** A tag loop step that inserts the tag for a name not seen before. */
  lemma LinkNewTag(before: seq<TagRow>, tags: seq<TagRow>, row: TagRow, quizId: Id, names: seq<string>, i: nat,
                   links: seq<QuizTagRow>)
    requires i < |names| && TagByName(tags, names[i]).None? && row.name == names[i]
    requires TagsLinked(before, tags, quizId, names[..i], links)
    ensures TagsLinked(before, tags + [row], quizId, names[..i + 1], links + [QuizTagRow(quizId, row.id)])
  {
    var tags' := tags + [row];
    assert names[..i + 1] == names[..i] + [names[i]];
    forall n ensures TagByName(tags', n) ==
        if TagByName(tags, n).Some? then TagByName(tags, n) else if row.name == n then Some(row) else None {
      TagByNameAppend(tags, row, n);
    }
    assert tags'[..|before|] == tags[..|before|];
    forall j | |before| <= j < |tags'| ensures tags'[j].name in names[..i + 1] {
      if j < |tags| {
        assert tags'[j] == tags[j];
        assert tags[j].name in names[..i];
      }
    }
  }

  /** A tag whose name is not yet taken keeps tag names unique. */
  lemma TagAppendKeepsUnique(tags: seq<TagRow>, row: TagRow)
    requires UniqueTagNames(tags) && TagByName(tags, row.name).None?
    ensures UniqueTagNames(tags + [row])
  {
  }

  datatype Uploaded = Uploaded(message: string, quizId: Id)

  /** `POST /upload-quiz`. The inserts build up a transaction that
      `connection.commit()` keeps; `dbOk` is whether every statement and the
      commit succeed, and when one fails the rollback discards them all. */
  method UploadQuiz(db: Database, quiz: QuizInput, creatorId: int, now: int, dbOk: bool) returns (r: Result<Uploaded>)
    requires db.QuizTableOk() && db.QuestionTableOk() && db.TagTableOk()
    modifies db`quizzes, db`nextQuizId, db`questions, db`nextQuestionId, db`tags, db`nextTagId, db`quizTags
    ensures db.QuizTableOk() && db.QuestionTableOk() && db.TagTableOk()
    ensures !dbOk ==> r == Err(HttpError(500, Foreign)) && unchanged(db)
    ensures dbOk ==>
      var quizId := old(db.nextQuizId);
      && r == Ok(Uploaded("Quiz Uploaded Successfully", quizId))
      && db.quizzes == old(db.quizzes) +
           [QuizRow(quizId, quiz.coverPhoto, quiz.title, quiz.description, quiz.isPublished, now, creatorId)]
      && db.nextQuizId == quizId + 1
      && QuestionsInserted(old(db.questions), db.questions, old(db.nextQuestionId), quizId, quiz.questions)
      && db.nextQuestionId == old(db.nextQuestionId) + |quiz.questions|
      && |db.quizTags| >= |old(db.quizTags)| && db.quizTags[..|old(db.quizTags)|] == old(db.quizTags)
      && TagsLinked(old(db.tags), db.tags, quizId, quiz.tags, db.quizTags[|old(db.quizTags)|..])
  {
    var quizId := db.nextQuizId;
    var quizRow := QuizRow(quizId, quiz.coverPhoto, quiz.title, quiz.description, quiz.isPublished, now, creatorId);
    QuizAppendKeepsIds(db.quizzes, quizId, quizRow);
    // the pending transaction
    var questions, nextQuestionId := InsertQuestions(db.questions, db.nextQuestionId, quizId, quiz.questions);
    var tags, nextTagId, links := LinkTags(db.tags, db.nextTagId, quizId, quiz.tags);
    if !dbOk {
      return Err(HttpError(500, Foreign));
    }
    // `connection.commit()`
    db.quizzes := db.quizzes + [quizRow];
    db.nextQuizId := quizId + 1;
    db.questions, db.nextQuestionId := questions, nextQuestionId;
    db.tags, db.nextTagId := tags, nextTagId;
    db.quizTags := db.quizTags + links;
    assert db.quizTags[|old(db.quizTags)|..] == links;
    r := Ok(Uploaded("Quiz Uploaded Successfully", quizId));
  }

  /** The tags an author may choose from, `QuizTag`, in declaration order. */
  datatype QuizTag = GK | Science | Math | History | Geography | Literature | Technology | Sports | Arts

  /** The enum member's value. */
  function TagValue(t: QuizTag): string {
    match t
    case GK => "GK"
    case Science => "Science"
    case Math => "Math"
    case History => "History"
    case Geography => "Geography"
    case Literature => "Literature"
    case Technology => "Technology"
    case Sports => "Sports"
    case Arts => "Arts"
  }

  /** Iterating the enum yields its members in declaration order. */
  const Declared: seq<QuizTag> := [GK, Science, Math, History, Geography, Literature, Technology, Sports, Arts]

  /** `GET /tags-option`: `[tag.value for tag in QuizTag]`. */
  function QuizTagsOption(): (r: seq<string>)
    ensures |r| == |Declared|
    ensures forall i :: 0 <= i < |r| ==> r[i] == TagValue(Declared[i])
  {
    seq(|Declared|, i requires 0 <= i < |Declared| => TagValue(Declared[i]))
  }

  /** An inverse of `TagValue`, the member with that value if any; it serves
      only to show that no two members share a value. */
  function TagOf(value: string): (r: Option<QuizTag>)
    ensures r.Some? ==> TagValue(r.value) == value
  {
    if value == "GK" then Some(GK)
    else if value == "Science" then Some(Science)
    else if value == "Math" then Some(Math)
    else if value == "History" then Some(History)
    else if value == "Geography" then Some(Geography)
    else if value == "Literature" then Some(Literature)
    else if value == "Technology" then Some(Technology)
    else if value == "Sports" then Some(Sports)
    else if value == "Arts" then Some(Arts)
    else None
  }

  /** Every member's value leads back to that member, so no two members share
      a value. */
  lemma TagValueRoundTrip(t: QuizTag)
    ensures TagOf(TagValue(t)) == Some(t)
  {
    match t
    case GK =>
    case Science => assert TagValue(t)[0] != 'G';
    case Math => assert TagValue(t)[0] == 'M';
    case History => assert TagValue(t)[0] == 'H';
    case Geography => assert TagValue(t)[0] == 'G' && TagValue(t)[1] != 'K';
    case Literature => assert TagValue(t)[0] == 'L';
    case Technology => assert TagValue(t)[0] == 'T';
    case Sports => assert TagValue(t)[0] == 'S' && TagValue(t)[1] == 'p';
    case Arts => assert TagValue(t)[0] == 'A';
  }

  /** A member's position in declaration order. */
  function Position(t: QuizTag): (k: nat)
    ensures k < |Declared| && Declared[k] == t
  {
    match t
    case GK => 0 case Science => 1 case Math => 2 case History => 3 case Geography => 4
    case Literature => 5 case Technology => 6 case Sports => 7 case Arts => 8
  }

  /** The options name every tag, each exactly once. */
  lemma TagsOptionListsEveryTag()
    ensures forall t :: TagValue(t) in QuizTagsOption()
    ensures forall i, j :: 0 <= i < j < |QuizTagsOption()| ==> QuizTagsOption()[i] != QuizTagsOption()[j]
  {
    var r := QuizTagsOption();
    forall t ensures TagValue(t) in r {
      assert r[Position(t)] == TagValue(t);
    }
    assert forall k :: 0 <= k < |Declared| ==> Position(Declared[k]) == k by {
      assert Declared == [GK, Science, Math, History, Geography, Literature, Technology, Sports, Arts];
    }
    forall i, j | 0 <= i < j < |r| ensures r[i] != r[j] {
      TagValueRoundTrip(Declared[i]);
      TagValueRoundTrip(Declared[j]);
    }
  }
}
