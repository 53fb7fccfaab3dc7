/** `ListHelpFaqs`: the help-centre FAQ page. The endpoint builds a query
    (enabled entries only, optionally one category, optionally a keyword in
    the question; ordered by `order_num`; the request's page passed through),
    hands it to the store, and copies every returned row into the reply. */
module HelpFaq {
  import opened Common
  import opened Condition

  /** A `help_faq` row (timestamps left out). */
  datatype Faq = Faq(id: string, categoryId: string, question: string, answer: string,
                     orderNum: int, viewCount: int, helpfulCount: int, unhelpfulCount: int,
                     isHot: bool, status: int)

  function Columns(f: Faq): map<string, Value> {
    map["id" := Str(f.id), "category_id" := Str(f.categoryId), "question" := Str(f.question),
        "answer" := Str(f.answer), "order_num" := Int(f.orderNum), "view_count" := Int(f.viewCount),
        "helpful_count" := Int(f.helpfulCount), "unhelpful_count" := Int(f.unhelpfulCount),
        "is_hot" := Bool(f.isHot), "status" := Int(f.status)]
  }

  datatype ListReq = ListReq(page: int, pageSize: int, categoryId: string, keyword: string)

  /** `HelpFaqInfo` of the reply (timestamps left out). */
  datatype FaqInfo = FaqInfo(id: string, categoryId: string, question: string, answer: string,
                             orderNum: int, viewCount: int, helpfulCount: int, unhelpfulCount: int,
                             isHot: bool, status: int)

  datatype ListReply = ListReply(total: int, list: seq<FaqInfo>)

  function InfoOf(f: Faq): (info: FaqInfo)
    ensures info.id == f.id && info.categoryId == f.categoryId
    ensures info.question == f.question && info.answer == f.answer
    ensures info.orderNum == f.orderNum && info.viewCount == f.viewCount
    ensures info.helpfulCount == f.helpfulCount && info.unhelpfulCount == f.unhelpfulCount
    ensures info.isHot == f.isHot && info.status == f.status
  {
    FaqInfo(f.id, f.categoryId, f.question, f.answer, f.orderNum, f.viewCount,
            f.helpfulCount, f.unhelpfulCount, f.isHot, f.status)
  }

  const StatusClause: QueryParam := QueryParam("status", Int(1), EQ, AND)

  function CategoryClause(categoryId: string): QueryParam {
    QueryParam("category_id", Str(categoryId), EQ, AND)
  }

  function KeywordClause(keyword: string): QueryParam {
    QueryParam("question", Str("%" + keyword + "%"), LIKE, AND)
  }

  /** The query the endpoint sends: the status clause first, then the
      category clause exactly when a category is given, then the keyword
      clause exactly when a keyword is given; always ordered by order_num
      ascending, with the request's page and page size. */
  function FaqQuery(req: ListReq): (q: Req)
    ensures q.page == req.page && q.pageSize == req.pageSize
    ensures q.order == [OrderParam("order_num", ASC)]
    ensures |q.query| == 1 + (if req.categoryId != "" then 1 else 0) + (if req.keyword != "" then 1 else 0)
    ensures q.query[0] == StatusClause
    ensures forall i :: 0 <= i < |q.query| ==> q.query[i].logic == AND
    ensures req.categoryId != "" <==> CategoryClause(req.categoryId) in q.query
    ensures req.categoryId != "" ==> q.query[1] == CategoryClause(req.categoryId)
    ensures req.keyword != "" <==> KeywordClause(req.keyword) in q.query
    ensures req.keyword != "" ==> q.query[|q.query| - 1] == KeywordClause(req.keyword)
  {
    var cat := if req.categoryId != "" then [CategoryClause(req.categoryId)] else [];
    var kw := if req.keyword != "" then [KeywordClause(req.keyword)] else [];
    Req(req.page, req.pageSize, [StatusClause] + cat + kw, [OrderParam("order_num", ASC)])
  }

  /** What the query means: a row is selected exactly when it is enabled,
      in the requested category if one is given, and its question matches
      the keyword pattern if a keyword is given. */
  lemma FaqQuerySelects(req: ListReq, f: Faq)
    ensures Selects(FaqQuery(req).query, Columns(f)) <==>
              f.status == 1 &&
              (req.categoryId != "" ==> f.categoryId == req.categoryId) &&
              (req.keyword != "" ==> Like(f.question, "%" + req.keyword + "%"))
  {
    var q := FaqQuery(req).query;
    var cols := Columns(f);
    assert Holds(q[0], cols) <==> f.status == 1;
    if req.categoryId != "" {
      assert Holds(q[1], cols) <==> f.categoryId == req.categoryId;
    }
    if req.keyword != "" {
      assert Holds(q[|q| - 1], cols) <==> Like(f.question, "%" + req.keyword + "%");
    }
  }

  /** For a keyword without LIKE wildcard or escape characters the keyword
      clause is a substring search on the question. */
  lemma FaqQueryKeyword(req: ListReq, f: Faq)
    requires req.keyword != "" && Plain(req.keyword)
    ensures Selects(FaqQuery(req).query, Columns(f)) <==>
              f.status == 1 &&
              (req.categoryId != "" ==> f.categoryId == req.categoryId) &&
              Contains(f.question, req.keyword)
  {
    FaqQuerySelects(req, f);
    LikeContains(f.question, req.keyword);
  }

  /** `ListHelpFaqs`. `find` is the store's paged query; `param` is the query
      it was given. */
  method ListHelpFaqs(req: ListReq, find: Req -> Result<(seq<Faq>, Paginator), Fault>)
    returns (r: Result<ListReply, ServiceError>, param: Req)
    ensures param == FaqQuery(req)
    ensures find(param).Err? ==> r == Err(ServiceError(DataSQLError, Some(find(param).error)))
    ensures find(param).Ok? ==>
              r.Ok? && r.value.total == find(param).value.1.total &&
              |r.value.list| == |find(param).value.0| &&
              forall i :: 0 <= i < |r.value.list| ==> r.value.list[i] == InfoOf(find(param).value.0[i])
  {
    param := Req(req.page, req.pageSize, [], [OrderParam("order_num", ASC)]);
    param := param.(query := param.query + [StatusClause]);
    if req.categoryId != "" {
      param := param.(query := param.query + [CategoryClause(req.categoryId)]);
    }
    if req.keyword != "" {
      param := param.(query := param.query + [KeywordClause(req.keyword)]);
    }
    assert param == FaqQuery(req);
    var found := find(param);
    if found.Err? {
      return Err(ServiceError(DataSQLError, Some(found.error))), param;
    }
    var (list, p) := found.value;
    var infos: seq<FaqInfo> := [];
    for i := 0 to |list|
      invariant |infos| == i
      invariant forall j :: 0 <= j < i ==> infos[j] == InfoOf(list[j])
    {
      infos := infos + [InfoOf(list[i])];
    }
    r := Ok(ListReply(p.total, infos));
  }
}
