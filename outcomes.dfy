/** Failure-carrying results shared by every module of the model. */
module Outcomes {

  datatype Option<+T> = None | Some(value: T)

  /** The Python exceptions the modelled code raises or catches. */
  datatype Error =
    | ValueError        // `str.index` miss, `random.randrange` on an empty range, a font size below 1
    | LookupError       // raised by make_images.draw_quote when the timestring is missing
    | IndexError        // a list or `str.split` result indexed past its end
    | AttributeError    // a text measurement handed `None` instead of a string
    | FileNotFoundError // `Image.open` of a bitmap that does not exist

  datatype Result<+T> = Ok(value: T) | Err(error: Error)
}
