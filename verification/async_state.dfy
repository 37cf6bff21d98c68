/** The `AsyncStateRenderer` component of
    `src/components/common/AsyncStateRenderer.tsx`: which of four views a
    data-fetching screen shows, chosen from its flags and its data. The
    custom renderers are modelled by the node they return, `children` by a
    function from the data to a node. */
module AsyncState {
  import opened Common

  const DEFAULT_ERROR_MESSAGE := "No se pudo cargar la información. Por favor, intenta más tarde."
  const EMPTY_MESSAGE := "No hay información disponible."

  /** The JavaScript values `data` can hold. Numbers are exact reals. */
  datatype JsValue =
    | Undefined
    | Null
    | Boolean(b: bool)
    | Number(n: real)
    | Text(s: string)
    | Array(items: seq<JsValue>)
    | Object

  /** `!value` */
  predicate Falsy(v: JsValue) {
    v.Undefined? || v.Null? || v == Boolean(false) || v == Number(0.0) || v == Text("")
  }

  /** The default `isEmpty`: `!data || (Array.isArray(data) && data.length === 0)`. */
  predicate DefaultIsEmpty(data: JsValue) {
    Falsy(data) || (data.Array? && |data.items| == 0)
  }

  /** The props; `None` stands for a prop that was not passed. */
  datatype Props<N> = Props(
    isLoading: bool,
    isError: bool,
    data: JsValue,
    children: JsValue -> N,
    renderLoading: Option<N>,
    renderError: Option<N>,
    renderEmpty: Option<N>,
    isEmpty: Option<JsValue -> bool>,
    errorMessage: Option<string>)

  /** What is rendered: the built-in spinner, the built-in error or empty
      panel with its text, or a node of the caller's. */
  datatype View<N> = Spinner | ErrorPanel(message: string) | EmptyPanel(message: string) | Node(node: N)

  /** The four states, in the order they are tested. */
  datatype Branch = Loading | Failed | Empty | Ready

  /** The `isEmpty` in force: the caller's, or the default. */
  predicate IsEmptyData<N>(p: Props<N>) {
    if p.isEmpty.Some? then p.isEmpty.value(p.data) else DefaultIsEmpty(p.data)
  }

  /** The state shown: loading wins over error, error over empty, and the
      data is shown only when none of them holds. */
  function BranchOf<N>(p: Props<N>): (b: Branch)
    ensures b == Loading <==> p.isLoading
    ensures b == Failed <==> !p.isLoading && p.isError
    ensures b == Empty <==> !p.isLoading && !p.isError && IsEmptyData(p)
    ensures b == Ready <==> !p.isLoading && !p.isError && !IsEmptyData(p)
  {
    if p.isLoading then Loading
    else if p.isError then Failed
    else if IsEmptyData(p) then Empty
    else Ready
  }

  /** The component's output. */
  function Render<N>(p: Props<N>): (v: View<N>)
    ensures BranchOf(p) == Loading ==> v == if p.renderLoading.Some? then Node(p.renderLoading.value) else Spinner
    ensures BranchOf(p) == Failed ==>
              v == if p.renderError.Some? then Node(p.renderError.value)
                   else ErrorPanel(if p.errorMessage.Some? then p.errorMessage.value else DEFAULT_ERROR_MESSAGE)
    ensures BranchOf(p) == Empty ==> v == if p.renderEmpty.Some? then Node(p.renderEmpty.value) else EmptyPanel(EMPTY_MESSAGE)
    ensures BranchOf(p) == Ready ==> v == Node(p.children(p.data))
  {
    if p.isLoading then
      if p.renderLoading.Some? then Node(p.renderLoading.value) else Spinner
    else if p.isError then
      if p.renderError.Some? then Node(p.renderError.value)
      else ErrorPanel(if p.errorMessage.Some? then p.errorMessage.value else DEFAULT_ERROR_MESSAGE)
    else if IsEmptyData(p) then
      if p.renderEmpty.Some? then Node(p.renderEmpty.value) else EmptyPanel(EMPTY_MESSAGE)
    else Node(p.children(p.data))
  }

  /** While loading, neither the error flag, the data, the emptiness test
      nor the other renderers make any difference. */
  lemma LoadingIgnoresEverythingElse<N>(p: Props<N>, isError: bool, data: JsValue, isEmpty: Option<JsValue -> bool>,
                                        renderError: Option<N>, renderEmpty: Option<N>)
    requires p.isLoading
    ensures Render(p.(isError := isError, data := data, isEmpty := isEmpty,
                      renderError := renderError, renderEmpty := renderEmpty)) == Render(p)
  {
  }

  /** Out of loading, an error hides the data whatever it is. */
  lemma ErrorIgnoresData<N>(p: Props<N>, data: JsValue, isEmpty: Option<JsValue -> bool>)
    requires !p.isLoading && p.isError
    ensures Render(p.(data := data, isEmpty := isEmpty)) == Render(p)
  {
  }

  /** `children` sees the data only in the ready state, and then it always
      does. */
  lemma ChildrenOnlyWhenReady<N>(p: Props<N>)
    ensures Render(p) == Node(p.children(p.data)) <== BranchOf(p) == Ready
    ensures BranchOf(p) != Ready && p.renderLoading.None? && p.renderError.None? && p.renderEmpty.None? ==>
              !Render(p).Node?
  {
  }

  /** The default emptiness test holds exactly for the falsy values and the
      empty array; any other array, object, `true`, non-zero number or
      non-empty string counts as data. */
  lemma DefaultIsEmptyCases(data: JsValue)
    ensures DefaultIsEmpty(data) <==>
              data in {Undefined, Null, Boolean(false), Number(0.0), Text(""), Array([])}
  {
  }
}
