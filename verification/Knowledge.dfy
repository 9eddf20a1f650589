/** The knowledge tables, and who may see which chunk. */
module Knowledge {
  import opened Common
  import opened Embeddings

  datatype Visibility = GlobalCurated | TutorMaterial | CourseMaterial | StudentPrivate | Conversation

  datatype Status = Ingesting | Empty | Ready | Incomplete | Deleted

  datatype Owner = Owner(
    visibility: Visibility, subject: Option<nat>, tutor: Option<nat>, course: Option<nat>, conversation: Option<nat>)

  datatype Source = Source(
    title: string, owner: Owner, hash: string, parser: string, chunker: string, model: string,
    chunkCount: nat, status: Status, deleted: bool)

  datatype ChunkRow = ChunkRow(
    id: nat, source: nat, ordinal: nat, text: string, key: string, owner: Owner,
    embedding: Option<Vector>, model: Option<string>)

  datatype Store = Store(sources: map<nat, Source>, chunks: seq<ChunkRow>)

  datatype Scope = Scope(
    subject: nat, tutor: Option<nat>, courses: set<nat>, conversation: Option<nat>, includeGlobal: bool)

  /** What each kind of visibility grants to a scope; anything not granted is denied. */
  predicate Visible(scope: Scope, owner: Owner) {
    match owner.visibility
    case StudentPrivate => owner.subject == Some(scope.subject)
    case GlobalCurated => scope.includeGlobal
    case TutorMaterial => scope.tutor.Some? && owner.tutor == scope.tutor
    case CourseMaterial => owner.course.Some? && owner.course.value in scope.courses
    case Conversation => scope.conversation.Some? && owner.conversation == scope.conversation
  }

  // ---- the predicate compiled into the query -------------------------------------------

  // One disjunct of the WHERE clause.
  datatype Clause =
    | PrivateOf(subject: nat)
    | AnyCurated
    | TutorOf(tutor: nat)
    | CourseAmong(courses: set<nat>)
    | ConversationOf(conversation: nat)

  // A comparison with NULL does not hold.
  predicate Holds(clause: Clause, owner: Owner) {
    match clause
    case PrivateOf(subject) => owner.visibility == StudentPrivate && owner.subject == Some(subject)
    case AnyCurated => owner.visibility == GlobalCurated
    case TutorOf(tutor) => owner.visibility == TutorMaterial && owner.tutor == Some(tutor)
    case CourseAmong(courses) => owner.visibility == CourseMaterial && owner.course.Some? && owner.course.value in courses
    case ConversationOf(c) => owner.visibility == Conversation && owner.conversation == Some(c)
  }

  predicate Satisfies(clauses: seq<Clause>, owner: Owner) {
    exists i :: 0 <= i < |clauses| && Holds(clauses[i], owner)
  }

  lemma SatisfiesSnoc(clauses: seq<Clause>, last: Clause, owner: Owner)
    ensures Satisfies(clauses + [last], owner) <==> Satisfies(clauses, owner) || Holds(last, owner)
  {
    var all := clauses + [last];
    if Satisfies(clauses, owner) {
      var i :| 0 <= i < |clauses| && Holds(clauses[i], owner);
      assert Holds(all[i], owner);
    }
    if Holds(last, owner) {
      assert Holds(all[|clauses|], owner);
    }
  }

  ghost predicate Extends(before: seq<Clause>, after: seq<Clause>, last: Clause) {
    forall owner :: Satisfies(after, owner) <==> Satisfies(before, owner) || Holds(last, owner)
  }

  lemma AppendExtends(clauses: seq<Clause>, last: Clause)
    ensures Extends(clauses, clauses + [last], last)
  {
    forall owner ensures Satisfies(clauses + [last], owner) <==> Satisfies(clauses, owner) || Holds(last, owner) {
      SatisfiesSnoc(clauses, last, owner);
    }
  }

  /** The compiled clauses let through exactly the rows the scope may see. */
  method BuildVisibilityPredicate(scope: Scope) returns (clauses: seq<Clause>)
    ensures forall owner :: Satisfies(clauses, owner) <==> Visible(scope, owner)
  {
    clauses := [PrivateOf(scope.subject)];
    assert forall owner :: Satisfies(clauses, owner) <==> Holds(clauses[0], owner);
    if scope.includeGlobal {
      AppendExtends(clauses, AnyCurated);
      clauses := clauses + [AnyCurated];
    }
    if scope.tutor.Some? {
      AppendExtends(clauses, TutorOf(scope.tutor.value));
      clauses := clauses + [TutorOf(scope.tutor.value)];
    }
    if scope.courses != {} {
      AppendExtends(clauses, CourseAmong(scope.courses));
      clauses := clauses + [CourseAmong(scope.courses)];
    }
    if scope.conversation.Some? {
      AppendExtends(clauses, ConversationOf(scope.conversation.value));
      clauses := clauses + [ConversationOf(scope.conversation.value)];
    }
  }

  /**
   Private notes are for their own student, curated content for scopes that ask for it, the rest for
   its tutor, course or conversation.
   */
  lemma VisibleIffGranted(scope: Scope, owner: Owner)
    ensures Visible(scope, owner) <==>
            || (owner.visibility == StudentPrivate && owner.subject == Some(scope.subject))
            || (owner.visibility == GlobalCurated && scope.includeGlobal)
            || (owner.visibility == TutorMaterial && owner.tutor.Some? && scope.tutor == Some(owner.tutor.value))
            || (owner.visibility == CourseMaterial && exists course :: course in scope.courses && owner.course == Some(course))
            || (owner.visibility == Conversation && owner.conversation.Some? && scope.conversation == Some(owner.conversation.value))
  {
  }

  /** The kinds a scope could possibly read, as it reports them for logs. */
  function VisibleKinds(scope: Scope): seq<Visibility> {
    [StudentPrivate]
    + (if scope.includeGlobal then [GlobalCurated] else [])
    + (if scope.tutor.Some? then [TutorMaterial] else [])
    + (if scope.courses != {} then [CourseMaterial] else [])
    + (if scope.conversation.Some? then [Conversation] else [])
  }

  /** The reported kinds and the predicate agree: a kind is listed exactly when some row of it could be seen. */
  lemma KindsAgreeWithPredicate(scope: Scope, kind: Visibility)
    ensures kind in VisibleKinds(scope) <==> exists owner: Owner :: owner.visibility == kind && Visible(scope, owner)
  {
    if kind in VisibleKinds(scope) {
      var course := if scope.courses == {} then None else var c :| c in scope.courses; Some(c);
      var owner := Owner(kind, Some(scope.subject), scope.tutor, course, scope.conversation);
      assert Visible(scope, owner);
    }
  }
}
