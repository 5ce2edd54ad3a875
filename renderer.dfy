/**
  The graphics backend (the crate's `renderer` module) as seen by the display and the
  terminal. Its functions are not modelled; every call the core makes to it is
  appended to a trace, so that the order and the number of calls can be stated.
 */
module Renderer {

  /** A shader-program handle; the headless terminal uses 0 as a placeholder. */
  type Program = nat

  /**
    The matrix `create_proj_matrix((width, height), aspect_ratio)` returns. The
    construction itself is not modelled: a matrix stands for the arguments it was
    built from, so two matrices are equal exactly when they were built from equal
    arguments.
   */
  datatype Matrix = ProjMatrix(width: nat, height: nat, aspectRatio: real)

  /** A vertex mesh built by a text buffer; only its identity matters here. */
  datatype Mesh = Mesh(id: nat)

  /** One call into the graphics backend. */
  datatype Call =
    | Clear
    | UpdateViewport(width: nat, height: nat)
    | Draw(program: Program, proj: Matrix, mesh: Mesh)
    | SetDebug(on: bool)

  /** The graphics context: the calls issued to it so far, oldest first. */
  class Gl {
    var calls: seq<Call>

    constructor ()
      ensures calls == []
    {
      calls := [];
    }

    /** `renderer::clear` */
    method Clear()
      modifies this
      ensures calls == old(calls) + [Call.Clear]
    {
      calls := calls + [Call.Clear];
    }

    /** `renderer::update_viewport` */
    method UpdateViewport(width: nat, height: nat)
      modifies this
      ensures calls == old(calls) + [Call.UpdateViewport(width, height)]
    {
      calls := calls + [Call.UpdateViewport(width, height)];
    }

    /** `renderer::draw`; the elapsed-time argument is not recorded. */
    method Draw(program: Program, proj: Matrix, mesh: Mesh)
      modifies this
      ensures calls == old(calls) + [Call.Draw(program, proj, mesh)]
    {
      calls := calls + [Call.Draw(program, proj, mesh)];
    }

    /** `renderer::set_debug` */
    method SetDebug(on: bool)
      modifies this
      ensures calls == old(calls) + [Call.SetDebug(on)]
    {
      calls := calls + [Call.SetDebug(on)];
    }
  }
}
