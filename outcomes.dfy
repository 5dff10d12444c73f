/** Option, Result and the decoder's "value plus new cursor position" outcome.
    Every exception the Python source can raise on some input is one `Error` constructor,
    so that the model is total on every byte string. */
module Outcomes {

  datatype Option<T> = None | Some(value: T)

  /** Why a decode or a conversion stops with an exception. */
  datatype Error =
    | ShortHeader       // the 12-byte file header is incomplete (`ret['nlayers']` on None)
    | Truncated         // a reader uses a None returned by `convert` (TypeError)
    | NoPolyLinePoints  // `ReadPolyLine` stores into the None returned by `ReadPolygon`
    | EllipseFields     // `ReadEllipse` reads `maj_axis` from its second dictionary (KeyError)
    | NonAscii          // `read_text` meets a byte >= 128 (UnicodeDecodeError)
    | Unterminated      // `read_text` reaches the end of the file (the source never returns)
    | NoLayerHeader     // the layer-header scan passes the end of the file (the source never returns)
    | NegativeSeek      // `f.seek(obj_pos + buf_size)` with a negative target (OSError, EINVAL)
    | LayerImageData    // `[LayerImage]` with a non-empty name stores the unassigned `data`
    | MissingPoints     // an exported shape has no `x_pts` (KeyError; text objects)
    | NoRoiLayer        // the container has no `ROI` layer (KeyError in `do_convert`)
    | NoClasses         // `classes.keys()` with the default `classes=None` (AttributeError)

  datatype Result<T> = Ok(value: T) | Err(error: Error) {
    predicate IsFailure() { Err? }

    function PropagateFailure<U>(): Result<U>
      requires Err?
    {
      Err(error)
    }

    function Extract(): T
      requires Ok?
    {
      value
    }
  }

  /** What a reader does from a cursor position: it returns `value` and leaves the cursor
      at `pos`, or it raises `error`. */
  datatype Outcome<T> = Done(value: T, pos: nat) | Crash(error: Error)

  /** A method's result `r` and final position `pos` are those the outcome `o` describes. */
  predicate Returned<T(==)>(o: Outcome<T>, r: Result<T>, pos: nat)
  {
    match o
    case Done(v, p) => r == Ok(v) && pos == p
    case Crash(e) => r == Err(e)
  }

  function Min(a: int, b: int): int { if a <= b then a else b }
}
