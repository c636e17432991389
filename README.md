# Policy-gradient return estimator and log cleaner, in Dafny

This project models two parts of a deep reinforcement learning course repository.

1. **The return and advantage estimator of the policy-gradient agent**
   (`hw2/cs285/agents/pg_agent.py`).
   - A batch of trajectories arrives as a list of per-trajectory reward arrays.
   - The agent turns it into one flat array of Q-value targets, in one of two modes:
     - *vanilla*: every step gets its trajectory's full discounted return;
     - *reward-to-go*: step `t` gets the discounted sum of the rewards from `t` on.
       It is computed with a lower-triangular mask and an einsum against `gamma ** -1`.
   - It then turns the Q-values into advantages: unchanged, or minus the critic's predictions.
   - It optionally normalises the advantages.
   - `update` flattens the per-trajectory observation, action, reward and terminal lists into flat batch arrays.
2. **The progress-bar log cleaner** (`hw4/report/clean_nohup.py`).
   - Each log line is stripped of spaces and newlines.
   - Everything up to the first tqdm rate field (`it/s]`, or failing that `s/it]`) is cut off.
   - Lines that are then blank are dropped; the others are kept with a newline.
   - The output file name replaces every `.log` in the input name by `_processed.log`.

Arithmetic is over exact reals (`real`), not floating point. Strings are `seq<char>`.

Modules:
- `Wrappers`: the `Option` and `Result` types.
- `Flatten`: `np.concatenate` over a list of arrays, with the offset of each trajectory in the flat array.
- `Vectors`: `np.sum` and the elementwise operations.
- `Discount`: the per-trajectory vectorised discounting, and a literal-sum reference definition it is proved against.
- `Normalization`: mean, population variance, and `(a - mean) / sigma`.
- `PgAgent`: the agent's settings, the two Q-value loops, mode selection, the advantage estimator and the update step.
- `CleanNohup`: `str.strip(' \n')`, `str.find`, the per-line cut, the line loop and `str.replace`.

Design points:
- `_discounted_return`, `_discounted_reward_to_go` and `clean_nohup` build lists in `for` loops, so they are methods with loop invariants. Each is proved equal to a specification function. The properties are proved about that function.
- The vectorised numpy expressions and the branching of `_estimate_advantage` are functions.
- The agent's attributes are never updated by the modelled code, so the agent is a datatype, not a class.
- The critic's predictions (`self.critic(obs)`) are an input array.
- The standard deviation used in normalisation is an input `sigma > 0`.
- Python exceptions become `Err` values:
  - `rewards[0]` on an empty batch;
  - `np.concatenate` of an empty list;
  - the shape assertion;
  - the `NotImplementedError` of the GAE branch;
  - the `TypeError` of the baseline loop.

## Model

| member | source | states |
|---|---|---|
| PgAgent.DiscountedReturn | hw2/cs285/agents/pg_agent.py:184-189 | the list built one array per trajectory, then concatenated, is the vanilla Q-value array of the batch (loop invariant: entry k of `l` is trajectory k's segment) |
| PgAgent.DiscountedRewardToGo | hw2/cs285/agents/pg_agent.py:198-206 | the list of per-trajectory masked-einsum arrays, concatenated, is the reward-to-go Q-value array of the batch |
| PgAgent.CalculateQVals | hw2/cs285/agents/pg_agent.py:107-119 | the mode is chosen by `use_reward_to_go` alone: false gives the vanilla arrays concatenated, true the reward-to-go arrays |
| PgAgent.QValuesLength | hw2/cs285/agents/pg_agent.py:184-206 | in both modes there is exactly one Q-value per timestep of the batch (total length of the reward arrays) |
| PgAgent.QValuesSegmentBounds | hw2/cs285/agents/pg_agent.py:184-206 | trajectory i's Q-values fill the slice [offset(i), offset(i+1)) of the flat array: one slot per reward, ending where trajectory i+1's slice begins, inside the array |
| PgAgent.VanillaQValuesAt | hw2/cs285/agents/pg_agent.py:186-189 | step t of trajectory i sits at offset(i) + t of the flat array and holds the literal sum of g^t' r_t' over the whole trajectory, the same for every t |
| PgAgent.RewardToGoQValuesAt | hw2/cs285/agents/pg_agent.py:199-206 | step t of trajectory i sits at offset(i) + t and holds the literal sum of g^(t'-t) r_t' for t' from t to the end of that trajectory only |
| PgAgent.RewardToGoQValuesRecurrence | hw2/cs285/agents/pg_agent.py:199-204 | within each trajectory's segment of the flat array, the last Q-value is the last reward and each earlier one is r_t + g times the next; the recursion stops at the trajectory's end |
| PgAgent.RewardToGoFirstIsVanilla | hw2/cs285/agents/pg_agent.py:187-203 | the first reward-to-go Q-value of every trajectory equals its vanilla Q-value, and both arrays have the same length |
| PgAgent.ZeroRewardsZeroQValues | hw2/cs285/agents/pg_agent.py:184-206 | all-zero rewards give all-zero Q-values in both modes |
| PgAgent.RawAdvantage | hw2/cs285/agents/pg_agent.py:132-169 | no critic: the advantages are the Q-values; critic: a shape error exactly when the lengths differ, otherwise Q - V pointwise without `gae_lambda`, and the GAE branch fails exactly when there is at least one timestep |
| PgAgent.EstimateAdvantage | hw2/cs285/agents/pg_agent.py:171-174 | fails exactly when the raw advantages fail; without normalisation they pass through unchanged; with it the result has mean zero and maps back to the raw advantages as raw = mean + sigma * result |
| PgAgent.EstimateAdvantageStandardized | hw2/cs285/agents/pg_agent.py:172-173 | when sigma is the population standard deviation of the raw advantages, the normalised advantages have mean 0 and variance 1 |
| PgAgent.ZeroRewardsZeroAdvantages | hw2/cs285/agents/pg_agent.py:132-174 | without a critic and without normalisation, all-zero rewards give all-zero advantages |
| PgAgent.ZeroRewardsZeroVariance | hw2/cs285/agents/pg_agent.py:132-173 | without a critic, with normalisation on, all-zero rewards in a batch of at least one step give raw advantages of mean 0 and variance 0; no sigma > 0 squares to that variance, so `EstimateAdvantageStandardized` never applies (numpy computes 0/0 there) |
| PgAgent.Update | hw2/cs285/agents/pg_agent.py:64-100 | empty batch fails at `rewards[0]`; an empty obs, action or terminal list fails in `np.concatenate`; an advantage error is passed on; with a critic the step ends in the baseline-loop error; otherwise the batch holds the concatenated arrays, the Q-values and the advantages computed from them |
| Flatten.ConcatLength | hw2/cs285/agents/pg_agent.py:72-75 | the concatenation's length is the sum of the per-trajectory lengths |
| Flatten.ConcatAt | hw2/cs285/agents/pg_agent.py:72-75 | element t of trajectory i lands at position offset(i) + t of the concatenation: the original order is kept |
| Discount.TrajectoryReturnIsLiteral | hw2/cs285/agents/pg_agent.py:187-188 | `np.sum(gam * reward)` equals the literal discounted sum of g^t' r_t' over the trajectory |
| Discount.VanillaSegmentConstant | hw2/cs285/agents/pg_agent.py:186-188 | a vanilla segment has one entry per reward, each equal to the trajectory's discounted return |
| Discount.RewardToGoSegmentIsLiteral | hw2/cs285/agents/pg_agent.py:200-203 | the masked einsum of `mask`, `gam ** -1` and `gam * reward` gives, at every step t, the literal sum of g^(t'-t) r_t' for t' >= t |
| Discount.RewardToGoStep | hw2/cs285/agents/pg_agent.py:195-196 | the literal reward-to-go satisfies Q_t = r_t + g Q_(t+1) |
| Discount.RewardToGoSegmentRecurrence | hw2/cs285/agents/pg_agent.py:199-204 | one trajectory's einsum segment: the last entry is the last reward, each earlier one is r_t + g times the next |
| Discount.RewardToGoFirstIsReturn | hw2/cs285/agents/pg_agent.py:187-203 | the first entry of the einsum segment equals the vanilla value, the trajectory's discounted return |
| Discount.VanillaExample | hw2/cs285/agents/pg_agent.py:181-188 | rewards [1, 1, 1] with gamma 0.5 give vanilla Q-values [1.75, 1.75, 1.75] |
| Discount.RewardToGoExample | hw2/cs285/agents/pg_agent.py:195-203 | rewards [1, 1, 1] with gamma 0.5 give reward-to-go Q-values [1.75, 1.5, 1.0] |
| Discount.PowNonZero | hw2/cs285/agents/pg_agent.py:201-203 | every power of a non-zero discount factor is non-zero, so `gam ** -1` is defined |
| Discount.PowAdd | hw2/cs285/agents/pg_agent.py:201-203 | g^(a+b) = g^a g^b, which makes g^-t g^p collapse to g^(p-t) in the einsum |
| Normalization.NormalizeMeanZero | hw2/cs285/agents/pg_agent.py:173 | `(a - a.mean()) / sigma` sums to zero and has mean zero, for any sigma > 0 |
| Normalization.NormalizeInverse | hw2/cs285/agents/pg_agent.py:173 | normalisation keeps the length and is undone by a = mean + sigma * normalised |
| Normalization.NormalizeUnitVariance | hw2/cs285/agents/pg_agent.py:173 | when sigma squared is the population variance (numpy's `std`), the normalised array has variance 1 |
| CleanNohup.LeadingEnd | hw4/report/clean_nohup.py:5 | the index of the first character that is not a space or newline, with everything before it a space or newline |
| CleanNohup.TrailingStart | hw4/report/clean_nohup.py:5 | the index after the last character that is not a space or newline, with everything from it on a space or newline |
| CleanNohup.StripSlice | hw4/report/clean_nohup.py:5 | `strip(' \n')` is a slice of the line: only spaces and newlines are removed before and after it, and it neither starts nor ends with one |
| CleanNohup.StripIdempotent | hw4/report/clean_nohup.py:5 | stripping twice is stripping once |
| CleanNohup.StripKeepsTabAndReturn | hw4/report/clean_nohup.py:5 | tabs and carriage returns are not stripped: `" \t done\r\n"` becomes `"\t done\r"` |
| CleanNohup.Find | hw4/report/clean_nohup.py:6-7 | `find` returns -1 or an index where the pattern occurs, with no occurrence before it |
| CleanNohup.FindAbsent | hw4/report/clean_nohup.py:6-8 | `find` returns -1 exactly when the pattern does not occur |
| CleanNohup.ProcessLineCut | hw4/report/clean_nohup.py:5-13 | the processed line is the suffix of the stripped line after the first `it/s]` if there is one, else after the first `s/it]` if there is one, else the whole stripped line |
| CleanNohup.ProcessLineExample | hw4/report/clean_nohup.py:5-9 | `"3.2it/s] ok\n"` becomes `" ok"` |
| CleanNohup.ProcessLinePriority | hw4/report/clean_nohup.py:6-11 | `it/s]` wins even when `s/it]` comes first: `"s/it]it/s]b"` becomes `"b"` |
| CleanNohup.CleanedLinesAppend | hw4/report/clean_nohup.py:4-15 | cleaning two parts of a log and joining the results is cleaning the whole log, so output lines keep the input order |
| CleanNohup.CleanedLinesShape | hw4/report/clean_nohup.py:14-15 | at most one output line per input line; each output line is some input line's processed form, non-blank, followed by a newline |
| CleanNohup.CleanedLinesKeepsNonBlank | hw4/report/clean_nohup.py:14-15 | every input line whose processed form is not blank appears in the output with a newline |
| CleanNohup.CleanNohup | hw4/report/clean_nohup.py:1-16 | the loop's `outs` is the cleaned-lines list of the whole input (invariant: of the lines seen so far), and the output name is the `.log` rewrite of the input name |
| CleanNohup.ReplaceAllAbsent | hw4/report/clean_nohup.py:16 | a name without `.log` is left unchanged |
| CleanNohup.ReplaceAllAfterStem | hw4/report/clean_nohup.py:16 | scanning left to right, the first occurrence after a stem without one is replaced and the scan continues after it |
| CleanNohup.OutputNameOfLog | hw4/report/clean_nohup.py:16 | `x.log`, with no `.log` in `x`, becomes `x_processed.log` |
| CleanNohup.OutputNameEveryOccurrence | hw4/report/clean_nohup.py:16 | every `.log` is replaced, not only the extension: `x.log.log` becomes `x_processed.log_processed.log` |

## Left out

- The actor and critic networks (`pg_agent.py` lines 31-40, 84-88, 139, 96) are left out: they are PyTorch forward and gradient steps. The critic's predictions are an input array, and `Update` returns the flat arrays handed to the actor instead of the actor's `info` dictionary.
- `PgAgent.Update`: the baseline loop (lines 92-98) is modelled only as the `TypeError` it raises. `baseline_gradient_steps` is an int or `None`, and iterating over it fails after the actor step has run.
- `PgAgent.RawAdvantage`: the GAE recursion (lines 148-169) is modelled only as the `NotImplementedError` its loop raises on the first iteration. With an empty batch the loop never runs and the result is empty. The code after the `raise` is unreachable.
- The debug prints (lines 104-106) are left out. Only their effect is kept: `rewards[0]` fails on an empty batch, which is `EmptyRewards`.
- `PgAgent.EstimateAdvantage`: `advantages.std()` needs a square root, so the standard deviation is an input `sigma > 0`. The unit-variance lemma takes `sigma * sigma` equal to the population variance. When the advantages are all equal, their standard deviation is 0 and numpy computes 0/0, which gives NaN. No `Ok` value models that NaN. `PgAgent.ZeroRewardsZeroVariance` shows the case arises: with all-zero rewards the variance is 0, so no admissible `sigma` matches it.
- `PgAgent.DiscountedRewardToGo`: requires `gamma != 0`, which is wider than the source's failure.
  - With `gamma == 0`, numpy's `gam ** -1` is `[1, inf, inf, ...]`.
  - Entry 0 of each trajectory is still `r_0`: its terms with `p >= 1` are `1 * 1 * (0 * r_p) = 0`.
  - Only the entries from `t = 1` on are NaN, through `0 * inf`.
  - So a batch whose trajectories all have one step is computed correctly by the source, but the model does not cover it.
  - Negative discount factors are allowed, as in numpy.
- Floating point is not modelled: all arithmetic is over exact reals, including the `float32` mask. Results are therefore exact where numpy rounds.
- `PgAgent.RewardToGoQValuesAt`: on long trajectories the model's reward-to-go is exact where numpy gives inf or NaN. Once `gamma ** t` is at most 2^-1024 (from t = 1024 for gamma = 0.5, from about t = 6737 for gamma = 0.9), its reciprocal in `gam ** -1` at line 203 overflows to inf. The masked `0 * inf` terms are then NaN, and every entry of the trajectory's einsum output from that step on is NaN as well.
- Lengths across lists are not checked by `update` (observations against rewards, say), and the model does not add such a check. Only the shape assertion between critic predictions and Q-values is modelled.
- In `clean_nohup.py`, the file reading and writing (lines 2 and 16) and the `__main__` driver (lines 18-24) are left out. The lines come in as a sequence of strings that keep their trailing newlines, as `readlines` gives them. The model accepts any strings. The program reads in text mode with universal newlines, though, so its lines never contain `\r`: `\r\n` and a lone `\r` (which tqdm writes between updates) both end a line. `CleanNohup.StripKeepsTabAndReturn` states a fact about `strip(' \n')` on an input the program never passes to it. The cleaned lines and the output name go out.
- `hw2/cs285/networks/policies.py` is not part of this model: it holds neural networks, sampling and optimiser steps.
- `hw3/report/plot_from_tfevents.py` is not part of this model: it is plotting and directory listing.
