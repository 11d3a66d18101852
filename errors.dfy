/** The exceptions the core raises, one constructor per distinct condition. */
module Errors {

  datatype Error =
    /** `ShapeError`: a point array of rank 2 or 3 whose trailing dimensions are not (3, 1). */
    | ShapeError
    /** `NumDimensionsError`: a point array of the wrong rank. */
    | NumDimensionsError
    /** `DataTypeError`: the point array does not hold floating point numbers. */
    | DataTypeError
    /** `TypeError` for a sensor parameter that is neither a number, a sequence nor an array. */
    | ParameterTypeError(parameter: string)
    /** `MismatchedInputsError`: the sensor parameters do not all have one length. */
    | MismatchedInputsError
    /** numpy `ValueError`: the values cannot be reshaped to the requested shape. */
    | ReshapeError
    /** `IndexError`: an empty point array read at [0, 0, 0], or a step list shorter than the borders. */
    | IndexError
    /** numpy `ValueError`: the minimum of an empty selection. */
    | EmptyMinimum
    /** `ValueError`: a slice step of zero. */
    | ZeroStep
    /** `TypeError`: a border that is neither a name nor a point array. */
    | BorderTypeError
    /** `BorderNotFound`, carrying the resolved name and the names that exist. */
    | BorderNotFound(name: string, available: set<string>)
    /** `BillboardNotFound`, carrying the resolved name and the names that exist. */
    | BillboardNotFound(name: string, available: set<string>)
    /** `ValueError`: an operation code other than eq, ge, le, g and l. */
    | InvalidOperation(code: string)
    /** numpy `ValueError`: two operands whose shapes do not broadcast. */
    | BroadcastError
    /**
     * `TypeError`: `Packet` got multiple values for a keyword argument, because an entity's
     * packet fields hold `id` or the geometry's own keyword, which the builder passes itself.
     */
    | DuplicateKeyword
}
