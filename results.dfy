/**
 * Option and Result values used throughout the model.  Python signals most
 * failures by raising an exception whose message becomes a string; `Err`
 * carries that message.
 */
module Results {

  datatype Option<+T> = None | Some(value: T) {
    function GetOr(default: T): T {
      match this
      case Some(v) => v
      case None => default
    }
  }

  datatype Result<+T> = Ok(value: T) | Err(error: string)
}
