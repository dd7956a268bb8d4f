/** The per-feed title filter: a regular expression, compiled with the `i`
    flag, that hides every item whose title it matches. The regular
    expression engine itself stays abstract. */
module TitleFilter {
  import opened Wrappers

  /** What the code asks of JavaScript's `RegExp`: whether `new RegExp(p, 'i')`
      compiles, and whether the compiled pattern matches a title. */
  datatype Engine = Engine(compiles: string -> bool, matches: (string, string) -> bool)

  /** The filter in force for a stored `titleFilter`: none when it is
      missing or empty, and none when it does not compile (fail-open). */
  function Compile(e: Engine, titleFilter: Option<string>): (r: Option<string>)
    ensures r.Some? <==> titleFilter.Some? && titleFilter.value != "" && e.compiles(titleFilter.value)
    ensures r.Some? ==> r == titleFilter
  {
    if titleFilter.Some? && titleFilter.value != "" && e.compiles(titleFilter.value) then titleFilter else None
  }

  /** Whether an item titled `title` survives the filter. */
  predicate Keeps(e: Engine, filter: Option<string>, title: string) {
    filter.None? || !e.matches(filter.value, title)
  }
}
