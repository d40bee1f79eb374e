/** Business errors inside error trees, and the HTTP status and body the error encoder makes
    of a tree.  A tree is built by wrapping (one child) and joining (any number). */
module Errors {
  import opened Basics

  type Data = string

  /** Biz is the response package's BizError.  Other is any other error: its Error() text, the
      duck-typed methods it has, and what it wraps.  Join unwraps to several errors. */
  datatype Err =
    | Biz(httpCode: int, code: int, message: string, data: Option<Data>, cause: Option<Err>)
    | Other(text: string, status: Option<int>, bizCode: Option<int>, errorData: Option<Data>, inner: Option<Err>)
    | Join(joinedText: string, errs: seq<Err>)

  datatype Response = Response(code: int, message: string, data: Option<Data>)

  const INTERNAL_STATUS: int := 500
  const INTERNAL_CODE: int := 50000
  const INTERNAL_MESSAGE: string := "internal server error"

  function WithCause(e: Err, cause: Option<Err>): Err
    requires e.Biz?
  {
    e.(cause := cause)
  }

  function WithMessage(e: Err, message: string): Err
    requires e.Biz?
  {
    e.(message := message)
  }

  // ---- the search ----

  /** errors.As for *BizError: the error itself, or depth first through what it unwraps to. */
  function IsBizError(e: Err): (r: Option<Err>)
    ensures r.Some? ==> r.value.Biz?
  {
    match e
    case Biz(_, _, _, _, _) => Some(e)
    case Other(_, _, _, _, inner) => if inner.Some? then IsBizError(inner.value) else None
    case Join(_, errs) => FirstOf(errs)
  }

  function FirstOf(errs: seq<Err>): (r: Option<Err>)
    ensures r.Some? ==> r.value.Biz?
  {
    if errs == [] then None
    else
      var found := IsBizError(errs[0]);
      if found.Some? then found else FirstOf(errs[1..])
  }

  /** All nodes of a tree, parents before children, children in order. */
  function Preorder(e: Err): seq<Err> {
    [e] + match e
          case Biz(_, _, _, _, cause) => if cause.Some? then Preorder(cause.value) else []
          case Other(_, _, _, _, inner) => if inner.Some? then Preorder(inner.value) else []
          case Join(_, errs) => PreorderAll(errs)
  }

  function PreorderAll(errs: seq<Err>): seq<Err> {
    if errs == [] then [] else Preorder(errs[0]) + PreorderAll(errs[1..])
  }

  function FirstBizIn(nodes: seq<Err>): (r: Option<Err>)
    ensures r.Some? ==> r.value.Biz?
  {
    if nodes == [] then None else if nodes[0].Biz? then Some(nodes[0]) else FirstBizIn(nodes[1..])
  }

  lemma {:induction false} FirstBizInAppend(a: seq<Err>, b: seq<Err>)
    ensures FirstBizIn(a + b) == if FirstBizIn(a).Some? then FirstBizIn(a) else FirstBizIn(b)
  {
    if a == [] {
      assert a + b == b;
    } else {
      assert (a + b)[1..] == a[1..] + b;
      FirstBizInAppend(a[1..], b);
    }
  }

  /** The search finds the first BizError in preorder, and finds one whenever there is one. */
  lemma {:induction false} SearchIsPreorder(e: Err)
    ensures IsBizError(e) == FirstBizIn(Preorder(e))
    decreases e
  {
    match e
    case Biz(_, _, _, _, _) =>
    case Other(_, _, _, _, inner) =>
      assert Preorder(e)[1..] == if inner.Some? then Preorder(inner.value) else [];
      if inner.Some? {
        SearchIsPreorder(inner.value);
      }
    case Join(_, errs) =>
      assert Preorder(e)[1..] == PreorderAll(errs);
      SearchAllIsPreorder(errs);
  }

  lemma {:induction false} SearchAllIsPreorder(errs: seq<Err>)
    ensures FirstOf(errs) == FirstBizIn(PreorderAll(errs))
    decreases errs
  {
    if errs != [] {
      SearchIsPreorder(errs[0]);
      SearchAllIsPreorder(errs[1..]);
      FirstBizInAppend(Preorder(errs[0]), PreorderAll(errs[1..]));
    }
  }

  // ---- status and body ----

  function Status(err: Option<Err>): int {
    if err.None? then INTERNAL_STATUS
    else if IsBizError(err.value).Some? then IsBizError(err.value).value.httpCode
    else if err.value.Other? && err.value.status.Some? then err.value.status.value
    else INTERNAL_STATUS
  }

  function Body(err: Option<Err>): Response {
    if err.None? then Response(0, "ok", None)
    else if IsBizError(err.value).Some? then
      var b := IsBizError(err.value).value;
      Response(b.code, b.message, b.data)
    else if err.value.Other? then
      var e := err.value;
      Response(
        if e.bizCode.Some? then e.bizCode.value else INTERNAL_CODE,
        if e.errorData.Some? then "validation failed" else if e.bizCode.Some? then e.text else INTERNAL_MESSAGE,
        e.errorData)
    else Response(INTERNAL_CODE, INTERNAL_MESSAGE, None)
  }

  class ResponseWriter {
    var status: int
    var body: Option<Response>

    constructor ()
      ensures body == None
    {
      status := 200;
      body := None;
    }
  }

  method ErrorToResponse(err: Option<Err>) returns (r: Response)
    ensures r == Body(err)
  {
    if err.None? {
      return Response(0, "ok", None);
    }
    var found := IsBizError(err.value);
    if found.Some? {
      return Response(found.value.code, found.value.message, found.value.data);
    }
    var code, message, data: Option<Data> := INTERNAL_CODE, INTERNAL_MESSAGE, None;
    if err.value.Other? && err.value.bizCode.Some? {
      code := err.value.bizCode.value;
      message := err.value.text;
    }
    if err.value.Other? && err.value.errorData.Some? {
      data := err.value.errorData;
      message := "validation failed";
    }
    return Response(code, message, data);
  }

  /** The error encoder with the default wrapper. */
  method EncodeError(w: ResponseWriter, err: Option<Err>)
    modifies w
    ensures w.status == Status(err) && w.body == Some(Body(err))
  {
    var resp := ErrorToResponse(err);
    var httpCode := INTERNAL_STATUS;
    if err.Some? {
      var found := IsBizError(err.value);
      if found.Some? {
        httpCode := found.value.httpCode;
      } else if err.value.Other? && err.value.status.Some? {
        httpCode := err.value.status.value;
      }
    }
    w.status := httpCode;
    w.body := Some(resp);
  }

  /** Whenever the tree holds a BizError, status and body come from the same one, the first in
      preorder; every other part of the tree is ignored. */
  lemma StatusAndBodyFromTheFirst(e: Err)
    ensures match FirstBizIn(Preorder(e))
            case Some(b) => Status(Some(e)) == b.httpCode && Body(Some(e)) == Response(b.code, b.message, b.data)
            case None => forall n <- Preorder(e) :: !n.Biz?
  {
    SearchIsPreorder(e);
    if FirstBizIn(Preorder(e)).None? {
      NoneMeansNone(Preorder(e));
    }
  }

  lemma {:induction false} NoneMeansNone(nodes: seq<Err>)
    requires FirstBizIn(nodes).None?
    ensures forall n <- nodes :: !n.Biz?
  {
    if nodes != [] {
      NoneMeansNone(nodes[1..]);
    }
  }

  // ---- causes do not leak ----

  /** e' is e with the causes of any number of its BizErrors replaced by anything, or removed.
      The texts of errors that wrap a BizError may change with them. */
  ghost predicate CausesReplaced(e: Err, e': Err) {
    match (e, e')
    case (Biz(h, c, m, d, _), Biz(h', c', m', d', _)) => h == h' && c == c' && m == m' && d == d'
    case (Other(t, s, b, d, i), Other(t', s', b', d', i')) =>
      && s == s' && b == b' && d == d'
      && (t == t' || IsBizError(e).Some?)
      && (i.Some? <==> i'.Some?)
      && (i.Some? ==> CausesReplaced(i.value, i'.value))
    case (Join(_, es), Join(_, es')) => AllCausesReplaced(es, es')
    case _ => false
  }

  ghost predicate AllCausesReplaced(es: seq<Err>, es': seq<Err>) {
    && |es| == |es'|
    && (es != [] ==> CausesReplaced(es[0], es'[0]) && AllCausesReplaced(es[1..], es'[1..]))
  }

  /** What the search finds, apart from its cause. */
  function Shape(found: Option<Err>): Option<(int, int, string, Option<Data>)>
    requires found.Some? ==> found.value.Biz?
  {
    match found
    case None => None
    case Some(b) => Some((b.httpCode, b.code, b.message, b.data))
  }

  lemma {:induction false} SearchIgnoresCauses(e: Err, e': Err)
    requires CausesReplaced(e, e')
    ensures Shape(IsBizError(e)) == Shape(IsBizError(e'))
    decreases e
  {
    match e
    case Biz(_, _, _, _, _) =>
    case Other(_, _, _, _, inner) =>
      if inner.Some? {
        SearchIgnoresCauses(inner.value, e'.inner.value);
      }
    case Join(_, errs) =>
      SearchAllIgnoresCauses(errs, e'.errs);
  }

  lemma {:induction false} SearchAllIgnoresCauses(es: seq<Err>, es': seq<Err>)
    requires AllCausesReplaced(es, es')
    ensures Shape(FirstOf(es)) == Shape(FirstOf(es'))
    decreases es
  {
    if es != [] {
      SearchIgnoresCauses(es[0], es'[0]);
      SearchAllIgnoresCauses(es[1..], es'[1..]);
    }
  }

  /** Replacing the causes of any BizErrors of a tree by any other errors changes neither the
      HTTP status nor the response body. */
  lemma CausesDoNotLeak(e: Err, e': Err)
    requires CausesReplaced(e, e')
    ensures Status(Some(e)) == Status(Some(e')) && Body(Some(e)) == Body(Some(e'))
  {
    SearchIgnoresCauses(e, e');
  }

  /** In particular WithCause, applied to the BizError that a wrapped error leads to, shows in
      neither; WithMessage shows in the message and in nothing else. */
  lemma DerivedErrors(b: Err, cause: Option<Err>, message: string, text: string)
    requires b.Biz?
    ensures var e := Other(text, None, None, None, Some(b));
            var e' := Other(text, None, None, None, Some(WithCause(b, cause)));
            Status(Some(e)) == Status(Some(e')) && Body(Some(e)) == Body(Some(e'))
    ensures var m := Some(WithMessage(WithCause(b, cause), message));
            Status(m) == Status(Some(b)) && Body(m) == Body(Some(b)).(message := message)
  {
    assert CausesReplaced(b, WithCause(b, cause));
    CausesDoNotLeak(Other(text, None, None, None, Some(b)), Other(text, None, None, None, Some(WithCause(b, cause))));
  }

  /** An error that is not a BizError and wraps none: its own status, code and data are used where it
      has them; its text is shown only with a code and without data.  No error at all is a success
      body under status 500. */
  lemma DuckTypedErrors(text: string, status: Option<int>, code: Option<int>, data: Option<Data>, inner: Option<Err>)
    requires inner.Some? ==> FirstBizIn(Preorder(inner.value)).None?
    ensures var e := Some(Other(text, status, code, data, inner));
            && Status(e) == (if status.Some? then status.value else 500)
            && Body(e).code == (if code.Some? then code.value else 50000)
            && Body(e).message == (if data.Some? then "validation failed"
                                   else if code.Some? then text else "internal server error")
            && Body(e).data == data
    ensures Status(None) == 500 && Body(None) == Response(0, "ok", None)
  {
    if inner.Some? {
      SearchIsPreorder(inner.value);
    }
  }

  /** The missing-token error of the JWT middleware. */
  lemma NoTokenError()
    ensures var e := Some(Other("auth: no token found", Some(401), Some(40100), None, None));
            Status(e) == 401 && Body(e) == Response(40100, "auth: no token found", None)
  {
    DuckTypedErrors("auth: no token found", Some(401), Some(40100), None, None);
  }

  /** The same does not hold of duck-typed errors: wrapped in an error without such methods, or
      joined with any number of others, their status, code and data are lost. */
  lemma WrappingHidesDuckTyping(e: Err, errs: seq<Err>, text: string)
    requires FirstBizIn(Preorder(e)).None? && FirstBizIn(PreorderAll(errs)).None?
    ensures var w := Some(Other(text, None, None, None, Some(e)));
            Status(w) == INTERNAL_STATUS && Body(w) == Response(INTERNAL_CODE, INTERNAL_MESSAGE, None)
    ensures var j := Some(Join(text, errs));
            Status(j) == INTERNAL_STATUS && Body(j) == Response(INTERNAL_CODE, INTERNAL_MESSAGE, None)
  {
    SearchIsPreorder(e);
    SearchAllIsPreorder(errs);
  }
}
