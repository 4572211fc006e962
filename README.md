# Array operations: combine two lists, removing the zeros of the first

This project models `Langcahin_SQL/array_operations.py`. It is the one part of the
repository whose behaviour belongs to the repository itself. The script combines two
integer lists. It drops every zero from the first list, keeps the order of what is
left, and appends the second list exactly as given. It does this five ways at module
level. Four of them are modelled here: the comprehension, `filter`, the one-liner and
the sorted variant. It also does it once through the reusable function
`combine_arrays_remove_zeros`, which it then tests on one concrete case.

Python lists become `seq<int>`. Every computation in the script builds a new list, so
in the model every operation is a pure function. No input is ever changed, which holds
trivially of Dafny values.

- `builtins.dfy` (module `Builtins`) models the two Python built-ins the script uses.
  `Filter` is `list(filter(p, xs))`. It is defined back to front, so its agreement
  with the front-to-back comprehension is a proved lemma, not a definition.
  `Sort` is `sorted(xs)` for integers, written as an insertion sort.
  `SortedPermutationUnique` shows that a list of integers has exactly one
  non-decreasing rearrangement. So `Sort` agrees with `sorted` whatever algorithm the
  interpreter uses.
- `array_operations.dfy` (module `ArrayOperations`) holds the comprehension
  `RemoveZeros`, the reusable function `CombineArraysRemoveZeros`, general versions of
  Methods 2 and 5, the script's module-level values as constants, and the lemmas.

"Keeps the order" is stated with `IsSubsequence(t, s)`: `t` is `s` with some elements
deleted. "The number of nonzero elements" is `NonZeroCount(s)`, which is `|s|` minus the
number of zeros in `multiset(s)`.

## Model

| member | source | states |
|---|---|---|
| `ArrayOperations.RemoveZeros` | Langcahin_SQL/array_operations.py:19 | the comprehension's result has no zero and is no longer than its input |
| `ArrayOperations.RemoveZerosMultiset` | Langcahin_SQL/array_operations.py:19 | removing zeros takes out every zero and keeps every other element as many times as it occurs |
| `ArrayOperations.RemoveZerosLength` | Langcahin_SQL/array_operations.py:19 | the result has exactly one element per nonzero element of the input |
| `ArrayOperations.RemoveZerosIsSubsequence` | Langcahin_SQL/array_operations.py:19 | the result keeps the input's order (it is a subsequence of the input) |
| `ArrayOperations.ZeroFreeSubsequenceBound` | Langcahin_SQL/array_operations.py:19 | no order-preserving zero-free selection from a list is longer than its number of nonzero elements |
| `ArrayOperations.RemoveZerosUnique` | Langcahin_SQL/array_operations.py:19 | a zero-free subsequence that has one element per nonzero element of the input is the comprehension's result |
| `ArrayOperations.RemoveZerosCharacterized` | Langcahin_SQL/array_operations.py:19 | both directions: a list is the comprehension's result exactly when it is all the nonzero elements of the input, in order |
| `ArrayOperations.RemoveZerosOfZeroFree` | Langcahin_SQL/array_operations.py:19 | a list with no zero is returned unchanged |
| `ArrayOperations.RemoveZerosIdempotent` | Langcahin_SQL/array_operations.py:19 | removing zeros twice gives the same list as removing them once |
| `ArrayOperations.RemoveZerosAppend` | Langcahin_SQL/array_operations.py:19 | zero removal distributes over list concatenation |
| `Builtins.Filter` | Langcahin_SQL/array_operations.py:31 | `list(filter(p, s))` is no longer than `s`, every element satisfies `p`, every element comes from `s`, and every element of `s` satisfying `p` is in it |
| `ArrayOperations.FilterNonZeroIsRemoveZeros` | Langcahin_SQL/array_operations.py:19-31 | `filter(lambda x: x != 0, s)` and `[x for x in s if x != 0]` give the identical list, for every input |
| `ArrayOperations.CombineArraysRemoveZeros` | Langcahin_SQL/array_operations.py:76-87 | the result has length nonzero-count of `arr1` plus `len(arr2)`; it ends with `arr2` exactly; the part before contains no zero and is a subsequence of `arr1` |
| `ArrayOperations.CombineMultiset` | Langcahin_SQL/array_operations.py:81-87 | the result holds every element of both inputs except the zeros of `arr1`; its zeros are exactly those of `arr2` |
| `ArrayOperations.CombineUnique` | Langcahin_SQL/array_operations.py:77-87 | any list with the four properties of the function's contract is the function's result, so the contract determines it completely |
| `ArrayOperations.CombineZeroFree` | Langcahin_SQL/array_operations.py:87 | if `arr1` has no zero the result is `arr1 + arr2` |
| `ArrayOperations.CombineIdempotent` | Langcahin_SQL/array_operations.py:87 | removing the zeros of `arr1` beforehand does not change the result |
| `ArrayOperations.CombineByFilter` | Langcahin_SQL/array_operations.py:31-32 | Method 2 (filter, then concatenate) equals `combine_arrays_remove_zeros` on every pair of inputs |
| `Builtins.Insert` | Langcahin_SQL/array_operations.py:72 | inserting into a sorted list gives a sorted list one longer, headed by the new element or the old head |
| `Builtins.InsertPermutation` | Langcahin_SQL/array_operations.py:72 | insertion adds exactly one occurrence of the new element |
| `Builtins.Sort` | Langcahin_SQL/array_operations.py:72 | `sorted` returns a non-decreasing list of the input's length |
| `Builtins.SortPermutation` | Langcahin_SQL/array_operations.py:72 | `sorted` returns a rearrangement of its input: the same elements, each as many times |
| `Builtins.SortedPermutationUnique` | Langcahin_SQL/array_operations.py:72 | two non-decreasing lists with the same elements are equal |
| `Builtins.SortOfPermutation` | Langcahin_SQL/array_operations.py:72 | any sorted rearrangement of a list is what `sorted` returns for it |
| `Builtins.SortCharacterized` | Langcahin_SQL/array_operations.py:72 | both directions: a list is `sorted(s)` exactly when it is non-decreasing and a rearrangement of `s` |
| `ArrayOperations.CombineSorted` | Langcahin_SQL/array_operations.py:72 | Method 5 is non-decreasing, is a rearrangement of the unsorted combined list, and has its length |
| `ArrayOperations.ScriptMethodsAgree` | Langcahin_SQL/array_operations.py:19-64 | on the script's lists, Methods 1, 2 and 4 give the same list, and it is what `combine_arrays_remove_zeros` returns |
| `ArrayOperations.ScriptCombined` | Langcahin_SQL/array_operations.py:6-23 | on the script's lists, the zero-free first list is `[1, 3, 5, 7, 9]` and Methods 1 and 4 give `[1, 3, 5, 7, 9, 2, 4, 6, 8, 10]` |
| `ArrayOperations.ScriptSorted` | Langcahin_SQL/array_operations.py:72 | on the script's lists, Method 5 gives `[1, 2, ..., 10]` |
| `ArrayOperations.ReusableFunctionTest` | Langcahin_SQL/array_operations.py:94-97 | `combine_arrays_remove_zeros([10, 0, 20, 0, 30, 0], [40, 50, 60])` is `[10, 20, 30, 40, 50, 60]` |

## Left out

- Method 3, NumPy (lines 41-57): a foreign library call with boolean-mask indexing. It computes the same list as the comprehension, which is modelled.
- All `print` output and string formatting in the script: output only.
- Element types: the script's lists hold integers, and the model is over `int`. Python's `x != 0` also drops `0.0` and `False`, which are not modelled.
- `Builtins.Sort`: it models the result of `sorted`, not Timsort's steps. By `SortedPermutationUnique` the result is the same whatever the algorithm.
- The rest of the repository: the Streamlit pages, the LangChain chains and agents, the model, embedding and vector-store clients, the PDF and web loaders, the SQLite fixture scripts and the LangServe route. They delegate all their behaviour to third-party libraries and remote services.
