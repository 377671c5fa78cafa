/** The exceptions that can escape the prediction path of the backend, as data.
    `preprocess_input` and `run_model` catch every exception, log it and
    re-raise it, so each one reaches the caller unchanged. */
module Errors {

  datatype PyError =
      /** numpy refuses to copy a truncated row of two or more entries into a
          row of width zero (pad_sequences with maxlen 0: `s[-0:]` keeps the
          whole row). */
    | BroadcastError
      /** `np.argmax` / `np.max` over an empty prediction, or row 0 of a
          prediction with no rows. */
    | EmptyPrediction

  datatype Result<+T> = Ok(value: T) | Err(error: PyError)
}
