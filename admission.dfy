/**
 * Admission of a POST /run request: the field defaults, the timeout clamp and
 * the two 400 rejections of `SandboxHandler.do_POST`, over the already parsed
 * JSON body.  The checks run in `do_POST`'s order: `int(timeout)` first, then
 * the language, then `code.strip()`.
 */
module Admission {
  import opened Wrappers
  import opened Config
  import opened PyStr

  datatype Language = Python | Node

  /** A member of the JSON body as `body.get` sees it: missing, a JSON string,
      or some other JSON value, carried with the text Python's `str()` gives it. */
  datatype Field = Absent | Text(s: string) | NonText(shown: string)

  /** The `timeout` member as `int(...)` sees it: missing, a value `int()`
      turns into `n`, or a value `int()` refuses (`null`, a list, "abc", ...). */
  datatype TimeoutField = TimeoutAbsent | TimeoutConverts(n: int) | TimeoutUnconvertible

  datatype Request = Request(language: Field, code: Field, timeout: TimeoutField)

  /** The exceptions `do_POST` does not catch. */
  datatype Fault =
    | TimeoutNotInteger  // `int(...)` raises (ValueError, TypeError, OverflowError, ...) at line 63
    | CodeNotString      // `code.strip()` raises AttributeError on a non-string

  datatype Admission =
    | Reject(status: int, message: string)
    | Accept(lang: Language, code: string, timeout: int)
    | Raise(fault: Fault)

  const BAD_REQUEST: int := 400

  function LanguageName(l: Language): string {
    match l
    case Python => "python"
    case Node => "node"
  }

  /** Membership in `("python", "node")`. */
  function ParseLanguage(s: string): (r: Option<Language>)
    ensures r.Some? <==> s == "python" || s == "node"
    ensures r.Some? ==> LanguageName(r.value) == s
  {
    if s == "python" then Some(Python)
    else if s == "node" then Some(Node)
    else None
  }

  /** `min(int(body.get("timeout", DEFAULT_TIMEOUT)), MAX_TIMEOUT)`; `None` when `int()` raises. */
  function EffectiveTimeout(t: TimeoutField): (r: Option<int>)
    ensures r.Some? ==> r.value <= MAX_TIMEOUT
    ensures t.TimeoutAbsent? ==> r == Some(DEFAULT_TIMEOUT)
    ensures t.TimeoutConverts? ==> r.Some? && (r.value == t.n || (r.value == MAX_TIMEOUT && t.n > MAX_TIMEOUT))
    ensures t.TimeoutUnconvertible? <==> r.None?
  {
    match t
    case TimeoutAbsent => Some(if DEFAULT_TIMEOUT < MAX_TIMEOUT then DEFAULT_TIMEOUT else MAX_TIMEOUT)
    case TimeoutConverts(n) => Some(if n < MAX_TIMEOUT then n else MAX_TIMEOUT)
    case TimeoutUnconvertible => None
  }

  /** The text `f"unsupported language: {language}"` shows. */
  function Shown(f: Field): string {
    match f
    case Absent => "python"
    case Text(s) => s
    case NonText(shown) => shown
  }

  /** `body.get("language", "python")` as a supported language, if it is one. */
  function RequestedLanguage(f: Field): Option<Language> {
    match f
    case Absent => Some(Python)
    case Text(s) => ParseLanguage(s)
    case NonText(_) => None
  }

  /** `body.get("code", "")` once it is known not to be a non-string. */
  function CodeText(f: Field): string {
    match f
    case Text(s) => s
    case _ => ""
  }

  /** The body of `do_POST` from line 61 up to the call of `execute_code`. */
  function Admit(r: Request): (a: Admission)
    ensures a.Reject? ==> a.status == BAD_REQUEST
    ensures a.Accept? ==> a.timeout <= MAX_TIMEOUT && r.code == Text(a.code) && !AllSpace(a.code)
    ensures a.Raise? <==> r.timeout.TimeoutUnconvertible? || (RequestedLanguage(r.language).Some? && r.code.NonText?)
  {
    match EffectiveTimeout(r.timeout)
    case None => Raise(TimeoutNotInteger)
    case Some(timeout) =>
      match RequestedLanguage(r.language)
      case None => Reject(BAD_REQUEST, "unsupported language: " + Shown(r.language))
      case Some(lang) =>
        match r.code
        case NonText(_) => Raise(CodeNotString)
        case _ =>
          var code := CodeText(r.code);
          StripEmptyIffAllSpace(code);
          if Strip(code) == [] then Reject(BAD_REQUEST, "empty code")
          else Accept(lang, code, timeout)
  }

  /** A request is run exactly when its timeout converts, its language is
      supported and its code is a string that is not all whitespace; the run
      gets the submitted language and code unchanged. */
  lemma AdmitAccepts(r: Request)
    ensures Admit(r).Accept? <==>
      !r.timeout.TimeoutUnconvertible? && RequestedLanguage(r.language).Some?
      && r.code.Text? && !AllSpace(r.code.s)
    ensures Admit(r).Accept? ==>
      Some(Admit(r).lang) == RequestedLanguage(r.language) && Admit(r).code == r.code.s
  {
    if r.code.Text? {
      StripEmptyIffAllSpace(r.code.s);
    }
  }

  /** A missing language means Python. */
  lemma LanguageDefaultsToPython(r: Request)
    requires r.language.Absent?
    ensures Admit(r).Accept? ==> Admit(r).lang == Python
    ensures !Admit(r).Reject? || Admit(r).message == "empty code"
  {
  }

  /** An unsupported language is refused with 400 before the code is looked at:
      whitespace-only or non-string code does not change the answer. */
  lemma UnsupportedLanguageRejected(r: Request)
    requires !r.timeout.TimeoutUnconvertible?
    requires RequestedLanguage(r.language).None?
    ensures Admit(r) == Reject(400, "unsupported language: " + Shown(r.language))
    ensures forall c: Field :: Admit(r.(code := c)) == Admit(r)
  {
  }

  /** Whitespace-only or missing code is refused with 400 "empty code". */
  lemma EmptyCodeRejected(r: Request)
    requires !r.timeout.TimeoutUnconvertible? && RequestedLanguage(r.language).Some?
    requires r.code.Absent? || (r.code.Text? && AllSpace(r.code.s))
    ensures Admit(r) == Reject(400, "empty code")
  {
    if r.code.Text? {
      StripEmptyIffAllSpace(r.code.s);
    }
  }

  /** `int(timeout)` runs first: an unconvertible timeout raises whatever the
      language and code are. */
  lemma TimeoutConvertedFirst(r: Request)
    requires r.timeout.TimeoutUnconvertible?
    ensures Admit(r) == Raise(TimeoutNotInteger)
  {
  }

  /** The timeout passed on is `min(requested, 120)`, 30 by default; it is never
      above 120 and is not bounded below. */
  lemma AcceptedTimeout(r: Request)
    requires Admit(r).Accept?
    ensures Admit(r).timeout <= MAX_TIMEOUT
    ensures r.timeout.TimeoutAbsent? ==> Admit(r).timeout == DEFAULT_TIMEOUT
    ensures r.timeout.TimeoutConverts? ==>
      Admit(r).timeout == if r.timeout.n < MAX_TIMEOUT then r.timeout.n else MAX_TIMEOUT
  {
  }

  /** There is no lower clamp: a request with a supported language and
      non-blank code is admitted with every requested timeout up to 120, zero
      and negative ones included, passed on as it is. */
  lemma NoLowerClamp(r: Request)
    requires r.timeout.TimeoutConverts? && r.timeout.n <= MAX_TIMEOUT
    requires RequestedLanguage(r.language).Some? && r.code.Text? && !AllSpace(r.code.s)
    ensures Admit(r).Accept? && Admit(r).timeout == r.timeout.n
  {
    AdmitAccepts(r);
  }

  /** For instance, a Node request with timeout -5 is admitted with timeout -5. */
  lemma NegativeTimeoutAdmitted()
    ensures Admit(Request(Text("node"), Text("1"), TimeoutConverts(-5))) == Accept(Node, "1", -5)
  {
    assert !IsSpace('1');
  }
}
