/** The embedded browser, seen from the scraper: scripts evaluated in the page,
    navigations, waits. The live DOM is an oracle: `world` gives the page that is
    shown after any sequence of side-effecting actions. */
module Browser {
  import opened Wrappers
  import opened Text

  /** What a script evaluation hands back to .NET (`JavascriptResponse.Result`). */
  datatype JsValue =
    | JsNull                          // null or undefined
    | JsString(text: string)
    | JsArray(items: seq<JsValue>)    // arrives as a List<object>
    | JsOther(shown: string)          // a number or object, with what Convert.ToString makes of it

  /** `JavascriptResponse`: the `Success` flag and the `Result`. */
  datatype Response = Response(success: bool, result: JsValue)

  /** No page defines a global named `documentdocument`. */
  const UndefinedGlobal: string := "documentdocument"

  /** The opening of a wrapped script whose returned expression starts by reading
      a member of the undefined global. */
  const UndefinedGlobalReturn: string := "(function() { return " + UndefinedGlobal + "."

  /** The script is a wrapped function that returns a member of the undefined global:
      the first thing it evaluates is that global, which throws a ReferenceError. */
  predicate ReturnsFromUndefinedGlobal(s: string) {
    |UndefinedGlobalReturn| <= |s| && s[..|UndefinedGlobalReturn|] == UndefinedGlobalReturn
  }

  /** The browser reports a thrown ReferenceError as an unsuccessful evaluation. */
  ghost predicate UndefinedGlobalFails(answer: string -> Response) {
    forall s {:trigger ReturnsFromUndefinedGlobal(s)} :: ReturnsFromUndefinedGlobal(s) ==> !answer(s).success
  }

  /** How a page may answer scripts. */
  type Answers = answer: string -> Response | UndefinedGlobalFails(answer)
    ghost witness (s: string) => Response(false, JsNull)

  /** One state of the shown page: its address and how it answers each script. */
  datatype Page = Page(address: string, answer: Answers)

  /** What the scraper does to the browser that may change what it shows. */
  datatype Action =
    | Eval(script: string)             // a script run for its effect (a click, setting a control)
    | Load(uri: string)                // LoadUrlAsync
    | WaitForSelector(selector: string)
    | WaitForLoad                      // waiting for the page load to end
    | Pause(millis: nat)               // Thread.Sleep

  /** `Convert.ToString(result)`. */
  function ConvertToString(v: JsValue): string {
    match v
    case JsNull => ""
    case JsString(t) => t
    case JsArray(_) => "System.Collections.Generic.List`1[System.Object]"
    case JsOther(shown) => shown
  }

  /** The `Success && Result != null` test followed by `Convert.ToString(Result)`:
      the text of a successful, non-null answer. */
  function TextOf(r: Response): (t: Option<string>)
    ensures t.Some? <==> r.success && r.result != JsNull
    ensures r.success && r.result.JsString? ==> t == Some(r.result.text)
  {
    if r.success && r.result != JsNull then Some(ConvertToString(r.result)) else None
  }

  /** How the shown page answers a script. */
  function Evaluate(p: Page, script: string): Response {
    p.answer(script)
  }

  /** A script that returns a member of the undefined global fails on every page. */
  lemma UndefinedGlobalAlwaysFails(p: Page, script: string)
    requires ReturnsFromUndefinedGlobal(script)
    ensures !Evaluate(p, script).success
  {
  }

  /** The `ChromiumWebBrowser` instance. `trail` records every action sent to it. */
  class Browser {
    const world: seq<Action> -> Page
    var trail: seq<Action>

    constructor (world: seq<Action> -> Page)
      ensures this.world == world && trail == []
    {
      this.world := world;
      trail := [];
    }

    /** The page currently shown. */
    function Current(): Page
      reads this
    {
      world(trail)
    }

    /** `browser.Address`. */
    function Address(): string
      reads this
    {
      world(trail).address
    }

    /** `EvaluateScriptAsync` of a script that only reads the page. */
    function Query(script: string): Response
      reads this
    {
      Evaluate(world(trail), script)
    }

    /** `EvaluateScriptAsync` of a script that acts on the page: it is answered by
        the page as it was, and the page may change afterwards. */
    method Run(script: string) returns (r: Response)
      modifies this
      ensures trail == old(trail) + [Eval(script)]
      ensures r == Evaluate(world(old(trail)), script)
    {
      r := Evaluate(world(trail), script);
      trail := trail + [Eval(script)];
    }

    /** `LoadUrlAsync(uri)`. */
    method LoadUrl(uri: string)
      modifies this
      ensures trail == old(trail) + [Load(uri)]
    {
      trail := trail + [Load(uri)];
    }

    /** `WaitForSelectorAsync(selector)`. */
    method WaitFor(selector: string)
      modifies this
      ensures trail == old(trail) + [WaitForSelector(selector)]
    {
      trail := trail + [WaitForSelector(selector)];
    }

    /** `HandleLoad.WaitForPageLoadEnd`. */
    method WaitForPageLoadEnd()
      modifies this
      ensures trail == old(trail) + [WaitForLoad]
    {
      trail := trail + [WaitForLoad];
    }

    /** `Thread.Sleep(millis)`: the page may change meanwhile. */
    method Sleep(millis: nat)
      modifies this
      ensures trail == old(trail) + [Pause(millis)]
    {
      trail := trail + [Pause(millis)];
    }
  }
}
