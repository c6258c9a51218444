/**
 * Model of app/controllers/api/rest/customer/v1/cdrs_controller.rb: the
 * customer API action `rec`, which answers a request for a call recording with
 * an internal redirect (`X-Accel-Redirect`) for the front-end proxy, or with a
 * bare 404, and hands any StandardError to the generic exception handler.
 *
 * The CDR's own methods (`has_recording?`, `call_record_filename`,
 * `call_record_ct`) and the key lookup of `find_cdr` are not part of this
 * model; each is an `Eval`: the value the call returns, or the error it raises.
 */
module CustomerCdrs {
  import opened Wrappers

  /** A Ruby StandardError, reduced to its message. */
  datatype StandardError = StandardError(message: string)

  /** The outcome of calling code this model does not see. */
  datatype Eval<+T> = Returns(value: T) | Raises(error: StandardError)

  /** The parts of a CDR that `rec` calls. */
  datatype Cdr = Cdr(hasRecording: Eval<bool>, callRecordFilename: Eval<string>, callRecordCt: Eval<string>)

  /** The parts of `current_customer` that `rec` reads. */
  datatype Customer = Customer(allowListenRecording: bool)

  /** What `rec` does with one request. `Raise` carries the error handed to
      `handle_exceptions` and the `X-Accel-Redirect` value already assigned
      when it was raised, if any. */
  datatype Decision =
    | Redirect(path: string, contentType: string)
    | NotFound
    | Raise(error: StandardError, redirectSet: Option<string>)

  /** Raised by Ruby when `has_recording?` is sent to a nil `@cdr`. */
  const NilCdrError := StandardError("undefined method 'has_recording?' for nil")

  const AccelRedirect := "X-Accel-Redirect"
  const ContentType := "Content-Type"

  /** The decision of `rec`, following Ruby's evaluation order: the permission
      flag, then `has_recording?` (only when permitted), then the filename, then
      the content type. */
  function Decide(customer: Customer, cdr: Option<Cdr>): Decision
  {
    if !customer.allowListenRecording then NotFound
    else if cdr.None? then Raise(NilCdrError, None)
    else match cdr.value.hasRecording
      case Raises(e) => Raise(e, None)
      case Returns(has) =>
        if !has then NotFound
        else match cdr.value.callRecordFilename
          case Raises(e) => Raise(e, None)
          case Returns(path) =>
            match cdr.value.callRecordCt
            case Raises(e) => Raise(e, Some(path))
            case Returns(ct) => Redirect(path, ct)
  }

  /** A redirect is sent exactly when the customer may listen to recordings and
      the CDR has one (and neither header value raises); it carries the CDR's
      filename and content type. */
  lemma RedirectIff(customer: Customer, cdr: Option<Cdr>)
    ensures Decide(customer, cdr).Redirect? <==>
      && customer.allowListenRecording
      && cdr.Some?
      && cdr.value.hasRecording == Returns(true)
      && cdr.value.callRecordFilename.Returns?
      && cdr.value.callRecordCt.Returns?
    ensures Decide(customer, cdr).Redirect? ==>
      && Decide(customer, cdr).path == cdr.value.callRecordFilename.value
      && Decide(customer, cdr).contentType == cdr.value.callRecordCt.value
  {
  }

  /** A 404 is sent exactly when the permission is missing or the CDR reports
      that it has no recording. */
  lemma NotFoundIff(customer: Customer, cdr: Option<Cdr>)
    ensures Decide(customer, cdr) == NotFound <==>
      !customer.allowListenRecording || (cdr.Some? && cdr.value.hasRecording == Returns(false))
  {
  }

  /** The permission flag is checked first: without it the answer is a 404
      whatever the record is, even a nil one or one whose `has_recording?`
      would raise, so the record is not consulted. */
  lemma PermissionCheckedFirst(customer: Customer, cdr1: Option<Cdr>, cdr2: Option<Cdr>)
    requires !customer.allowListenRecording
    ensures Decide(customer, cdr1) == Decide(customer, cdr2) == NotFound
  {
  }

  /** Every error raised while deciding goes to the exception handler, and it is
      the first one raised in evaluation order. */
  lemma ErrorsGoToHandler(customer: Customer, cdr: Cdr)
    requires customer.allowListenRecording
    ensures cdr.hasRecording.Raises? ==> Decide(customer, Some(cdr)) == Raise(cdr.hasRecording.error, None)
    ensures cdr.hasRecording == Returns(true) && cdr.callRecordFilename.Raises? ==>
      Decide(customer, Some(cdr)) == Raise(cdr.callRecordFilename.error, None)
    ensures cdr.hasRecording == Returns(true) && cdr.callRecordFilename.Returns? && cdr.callRecordCt.Raises? ==>
      Decide(customer, Some(cdr)) == Raise(cdr.callRecordCt.error, Some(cdr.callRecordFilename.value))
    ensures Decide(customer, None) == Raise(NilCdrError, None)
  {
  }

  /** The controller actions: `rec`, or any other. */
  datatype Action = Rec | Other

  /** Whether a response with this status carries content (Rack's statuses
      without an entity body are 1xx, 204 and 304). */
  predicate CarriesContent(code: int)
  {
    !(100 <= code <= 199) && code != 204 && code != 304
  }

  /** One controller instance, serving one request. */
  class CdrsController {
    const currentCustomer: Customer
    /** The MIME type of the request's format, which `head` writes as content type. */
    const requestMime: string
    /** `@cdr`, set by `find_cdr`. */
    var cdr: Option<Cdr>
    var status: int
    var headers: map<string, string>
    var body: string
    /** Whether a response has been rendered (Rails' `performed?`). */
    var performed: bool
    /** The errors handed to `handle_exceptions`, in order. */
    var handled: seq<StandardError>

    constructor (currentCustomer: Customer, requestMime: string)
      ensures this.currentCustomer == currentCustomer && this.requestMime == requestMime
      ensures cdr == None && status == 200 && headers == map[] && body == ""
      ensures !performed && handled == []
    {
      this.currentCustomer := currentCustomer;
      this.requestMime := requestMime;
      cdr := None;
      status := 200;
      headers := map[];
      body := "";
      performed := false;
      handled := [];
    }

    /** `handle_exceptions`: its response is not part of this model; it is
        recorded as having rendered one. */
    method HandleExceptions(e: StandardError)
      modifies this`handled, this`performed
      ensures handled == old(handled) + [e] && performed
    {
      handled := handled + [e];
      performed := true;
    }

    /** `find_cdr`: `lookup` is the result of `verify_key` and `find_by_key`. */
    method FindCdr(lookup: Eval<Cdr>)
      modifies this`cdr, this`handled, this`performed
      ensures lookup.Returns? ==> cdr == Some(lookup.value) && handled == old(handled) && performed == old(performed)
      ensures lookup.Raises? ==> cdr == old(cdr) && handled == old(handled) + [lookup.error] && performed
    {
      match lookup
      case Returns(record) =>
        cdr := Some(record);
      case Raises(e) =>
        HandleExceptions(e);
    }

    /** The `before_action` filters: `find_cdr` runs for `rec` only. */
    method BeforeAction(action: Action, lookup: Eval<Cdr>)
      modifies this`cdr, this`handled, this`performed
      ensures action == Rec ==> (lookup.Returns? ==> cdr == Some(lookup.value) && handled == old(handled) && performed == old(performed))
      ensures action == Rec ==> (lookup.Raises? ==> cdr == old(cdr) && handled == old(handled) + [lookup.error] && performed)
      ensures action != Rec ==> cdr == old(cdr) && handled == old(handled) && performed == old(performed)
    {
      if action == Rec {
        FindCdr(lookup);
      }
    }

    /** `head code`: the status and an empty body; a status that carries
        content also gets the request format's content type, unless one is set. */
    method Head(code: int)
      modifies this`status, this`headers, this`body, this`performed
      ensures status == code && body == "" && performed
      ensures headers ==
        if CarriesContent(code) && ContentType !in old(headers) then old(headers)[ContentType := requestMime]
        else old(headers)
    {
      status, body, performed := code, "", true;
      if CarriesContent(code) && ContentType !in headers {
        headers := headers[ContentType := requestMime];
      }
    }

    /** `rec`: writes the decision into the response. */
    method RecAction()
      modifies this`status, this`headers, this`body, this`performed, this`handled
      ensures match Decide(currentCustomer, cdr)
        case Redirect(path, ct) =>
          && headers == old(headers)[AccelRedirect := path][ContentType := ct]
          && status == 200 && body == "" && performed && handled == old(handled)
        case NotFound =>
          && headers == (if ContentType in old(headers) then old(headers) else old(headers)[ContentType := requestMime])
          && status == 404 && body == "" && performed && handled == old(handled)
        case Raise(e, redirectSet) =>
          && headers == (if redirectSet.Some? then old(headers)[AccelRedirect := redirectSet.value] else old(headers))
          && status == old(status) && body == old(body) && performed && handled == old(handled) + [e]
    {
      var decision := Decide(currentCustomer, cdr);
      match decision
      case Redirect(path, ct) =>
        headers := headers[AccelRedirect := path];
        headers := headers[ContentType := ct];
        status, body, performed := 200, "", true;
      case NotFound =>
        Head(404);
      case Raise(e, redirectSet) =>
        if redirectSet.Some? {
          headers := headers[AccelRedirect := redirectSet.value];
        }
        HandleExceptions(e);
    }

    /** One request for `rec` on a fresh controller: the `find_cdr` filter, then
        the action unless the filter already rendered a response. */
    static method ServeRec(customer: Customer, requestMime: string, lookup: Eval<Cdr>) returns (c: CdrsController)
      ensures fresh(c)
      ensures lookup.Raises? ==>
        && c.handled == [lookup.error] && c.performed
        && c.headers == map[] && c.status == 200 && c.body == ""
      ensures lookup.Returns? ==>
        match Decide(customer, Some(lookup.value))
        case Redirect(path, ct) =>
          && c.headers == map[AccelRedirect := path, ContentType := ct]
          && c.status == 200 && c.body == "" && c.handled == []
        case NotFound =>
          && c.headers == map[ContentType := requestMime] && c.status == 404 && c.body == "" && c.handled == []
        case Raise(e, redirectSet) =>
          && c.headers == (if redirectSet.Some? then map[AccelRedirect := redirectSet.value] else map[])
          && c.handled == [e]
    {
      c := new CdrsController(customer, requestMime);
      c.BeforeAction(Rec, lookup);
      if !c.performed {
        c.RecAction();
      }
    }
  }

  /** On a served `rec` request the status is 200 with a redirect header exactly
      when the customer may listen and the CDR has a recording; otherwise the
      response is a 404 whose only header is the request format's content type. */
  method ServedResponse(customer: Customer, requestMime: string, record: Cdr)
    returns (status: int, headers: map<string, string>)
    requires record.callRecordFilename.Returns? && record.callRecordCt.Returns?
    requires record.hasRecording.Returns?
    ensures (status == 200 && AccelRedirect in headers) <==>
      customer.allowListenRecording && record.hasRecording.value
    ensures AccelRedirect in headers ==>
      && headers[AccelRedirect] == record.callRecordFilename.value
      && ContentType in headers && headers[ContentType] == record.callRecordCt.value
    ensures AccelRedirect !in headers ==> status == 404 && headers == map[ContentType := requestMime]
  {
    var c := CdrsController.ServeRec(customer, requestMime, Returns(record));
    status, headers := c.status, c.headers;
  }
}
