/**
 * The column arithmetic of the route listing (utils.go): the method column is
 * padded with dots to six characters, an unnamed route is shown as "unnamed",
 * and a run of dots fills the rest of the terminal line, never fewer than five.
 * The terminal width is a parameter; colours and printing are not modelled.
 */
module RouteLog {
  /** The width the method column is padded to. */
  const MethodColumn := 6

  /** The fewest dots between a path and its route name. */
  const MinDots := 5

  /** methodSpaces: the method unchanged, and how many dots pad it to the method column. */
  function MethodSpaces(httpMethod: string): (r: (string, int))
    ensures r.0 == httpMethod
    ensures r.1 >= 0
    ensures |httpMethod| + r.1 == if |httpMethod| > MethodColumn then |httpMethod| else MethodColumn
  {
    var l := MethodColumn - |httpMethod|;
    (httpMethod, if |httpMethod| > MethodColumn then 0 else l)
  }

  /** The name logRoutes shows for a route. */
  function DisplayName(name: string): (shown: string)
    ensures name == "" ==> shown == "unnamed"
    ensures name != "" ==> shown == name
    ensures |shown| > 0
  {
    if name == "" then "unnamed" else name
  }

  /**
   * The number of dots logRoutes prints between the path and the name: the
   * terminal width less the padded method, the path, the shown name and the
   * five spaces of the line, but at least five.
   */
  function DotsWidth(termWidth: int, httpMethod: string, p: string, name: string): (w: int)
    ensures w >= MinDots
  {
    var (m, l) := MethodSpaces(httpMethod);
    var width := termWidth - (l + |m|) - |p| - |DisplayName(name)| - 5;
    if width < MinDots then MinDots else width
  }

  /**
   * The printed line " <dots><method> <path> <dots> <name> " is exactly as wide
   * as the terminal whenever that leaves room for five dots, and wider otherwise.
   */
  lemma LineFillsTerminal(termWidth: int, httpMethod: string, p: string, name: string)
    ensures var lineWidth := MethodSpaces(httpMethod).1 + |httpMethod| + |p| + DotsWidth(termWidth, httpMethod, p, name) + |DisplayName(name)| + 5;
            lineWidth >= termWidth &&
            (termWidth - (MethodSpaces(httpMethod).1 + |httpMethod|) - |p| - |DisplayName(name)| - 5 >= MinDots ==> lineWidth == termWidth)
  {
  }
}
