/** Optional values and results with an error, standing in for Go's nil
    pointers and its `(value, error)` return pairs. */
module Wrappers {

  /** A Go pointer that may be nil. */
  datatype Option<+T> = None | Some(value: T)

  /** A Go `(value, error)` pair in which exactly one side is meaningful. */
  datatype Result<+T, +E> = Ok(value: T) | Err(error: E)
}

/** The errors the exporter produces or passes on. The message texts that
    `fmt.Errorf` adds are not modelled; the wrapping structure is. */
module Errors {

  /** The two kinds of `*strconv.NumError`: `ErrSyntax` and `ErrRange`. */
  datatype NumError = ErrSyntax | ErrRange

  datatype Error =
    | ApiError(message: string)          // an error reported by the ECR API call itself
    | DescribeFailed(cause: Error)       // "failed to describe image scan findings" (main.go:124)
    | ReadFindingsFailed(cause: Error)   // "failed to read ECR Image Scan Findings infos" (main.go:68)
    | ConfigFailed(input: string, numError: NumError)  // strconv.Atoi rejected the interval setting (main.go:95)
}
